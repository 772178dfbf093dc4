/** The IDE extended capability in configuration space (section 7.9.26 of PCIe Base
    Specification 6.1) and the library's walkers over its Link and Selective blocks.
    Registers are dwords, so a place in configuration space is a dword index. */
module IdeEcap {
  import opened Words
  import opened Kcbar

  /** The two kinds of blocks (TEST_IDE_TYPE); the combined topology is not implemented. */
  datatype IdeType = SelectiveIde | LinkIde

  // ------------------------------------------------------------ the capability register

  function LinkBlocks(cap: u32): nat { if cap % 2 == 1 then cap / 0x2000 % 8 + 1 else 0 }
  function SelectiveBlocks(cap: u32): nat { if cap / 2 % 2 == 1 then cap / 0x1_0000 % 0x100 + 1 else 0 }

  /** The fields of the capability register: whether there are link blocks (bit 0) and selective ones (bit 1),
      and their numbers minus one (bits 13 to 15 and 16 to 23). */
  lemma CapabilityFields(cap: u32, link: bool, selective: bool, links: nat, selectives: nat, rest: nat, top: nat)
    requires links < 8 && selectives < 0x100 && rest < 0x800
    requires cap == (if link then 1 else 0) + (if selective then 2 else 0) + 4 * rest + 0x2000 * links +
      0x1_0000 * selectives + 0x100_0000 * top
    ensures LinkBlocks(cap) == (if link then links + 1 else 0)
    ensures SelectiveBlocks(cap) == (if selective then selectives + 1 else 0)
  {
    assert cap % 2 == (if link then 1 else 0);
    assert cap / 2 == (if selective then 1 else 0) + 2 * (rest + 0x800 * links + 0x4000 * selectives + 0x40_0000 * top);
    assert cap / 0x2000 == links + 8 * (selectives + 0x100 * top);
    assert cap / 0x1_0000 == selectives + 0x100 * top;
  }

  const LINK_DWORDS: nat := 2
  const SELECTIVE_DWORDS: nat := 5
  const ADDRESS_DWORDS: nat := 3

  function Word(mem: seq<u32>, p: nat): u32 { if p < |mem| then mem[p] else 0 }

  /** num_addr_assoc_reg_blocks of the selective block that starts at `p`. */
  function AddressBlocks(mem: seq<u32>, p: nat): nat { Word(mem, p) % 16 }

  /** Where the `k`-th selective block starts when the first one starts at `first`. */
  function SelectiveAt(mem: seq<u32>, first: nat, k: nat): (p: nat)
    ensures first + SELECTIVE_DWORDS * k <= p
  {
    if k == 0 then first
    else
      var p := SelectiveAt(mem, first, k - 1);
      p + SELECTIVE_DWORDS + ADDRESS_DWORDS * AddressBlocks(mem, p)
  }

  /** The link blocks follow the header, the capability and the control register. */
  function LinkAt(e: nat, k: nat): nat { e + 3 + LINK_DWORDS * k }

  predicate HasCapability(mem: seq<u32>, e: nat) { e + 3 <= |mem| }

  function Links(mem: seq<u32>, e: nat): nat requires HasCapability(mem, e) { LinkBlocks(mem[e + 1]) }
  function Selectives(mem: seq<u32>, e: nat): nat requires HasCapability(mem, e) { SelectiveBlocks(mem[e + 1]) }

  function FirstSelective(mem: seq<u32>, e: nat): nat
    requires HasCapability(mem, e)
  {
    LinkAt(e, Links(mem, e))
  }

  /** All blocks lie inside configuration space. */
  predicate Laid(mem: seq<u32>, e: nat) {
    HasCapability(mem, e) && SelectiveAt(mem, FirstSelective(mem, e), Selectives(mem, e)) <= |mem|
  }

  /** Blocks are numbered through: first the link blocks, then the selective ones. */
  predicate IsBlock(mem: seq<u32>, e: nat, t: IdeType, id: nat)
    requires HasCapability(mem, e)
  {
    match t
    case LinkIde => id < Links(mem, e)
    case SelectiveIde => Links(mem, e) <= id < Links(mem, e) + Selectives(mem, e)
  }

  function BlockAt(mem: seq<u32>, e: nat, t: IdeType, id: nat): nat
    requires HasCapability(mem, e) && IsBlock(mem, e, t, id)
  {
    match t
    case LinkIde => LinkAt(e, id)
    case SelectiveIde => SelectiveAt(mem, FirstSelective(mem, e), id - Links(mem, e))
  }

  /** The stream control register of a block; in a selective block a capability register precedes it. */
  function ControlAt(mem: seq<u32>, e: nat, t: IdeType, id: nat): nat
    requires HasCapability(mem, e) && IsBlock(mem, e, t, id)
  {
    BlockAt(mem, e, t, id) + if t == SelectiveIde then 1 else 0
  }

  function BlockSize(mem: seq<u32>, e: nat, t: IdeType, id: nat): nat
    requires HasCapability(mem, e) && IsBlock(mem, e, t, id)
  {
    match t
    case LinkIde => LINK_DWORDS
    case SelectiveIde => SELECTIVE_DWORDS + ADDRESS_DWORDS * AddressBlocks(mem, BlockAt(mem, e, t, id))
  }

  lemma {:induction false} SelectiveMonotone(mem: seq<u32>, first: nat, j: nat, k: nat)
    requires j < k
    ensures SelectiveAt(mem, first, j) + SELECTIVE_DWORDS
      + ADDRESS_DWORDS * AddressBlocks(mem, SelectiveAt(mem, first, j))
      <= SelectiveAt(mem, first, k)
  {
    if j + 1 < k {
      SelectiveMonotone(mem, first, j, k - 1);
    }
  }

  lemma BlockInside(mem: seq<u32>, e: nat, t: IdeType, id: nat)
    requires Laid(mem, e) && IsBlock(mem, e, t, id)
    ensures e + 3 <= BlockAt(mem, e, t, id) && BlockAt(mem, e, t, id) + BlockSize(mem, e, t, id) <= |mem|
  {
    if t == SelectiveIde {
      SelectiveMonotone(mem, FirstSelective(mem, e), id - Links(mem, e), Selectives(mem, e));
    }
  }

  /** Blocks lie inside configuration space, behind the capability's own registers, in the order of
      their numbers, and do not overlap. */
  lemma BlocksApart(mem: seq<u32>, e: nat, t: IdeType, id: nat, u: IdeType, other: nat)
    requires Laid(mem, e) && IsBlock(mem, e, t, id) && IsBlock(mem, e, u, other)
    ensures e + 3 <= BlockAt(mem, e, t, id) && BlockAt(mem, e, t, id) + BlockSize(mem, e, t, id) <= |mem|
    ensures id < other ==> BlockAt(mem, e, t, id) + BlockSize(mem, e, t, id) <= BlockAt(mem, e, u, other)
  {
    BlockInside(mem, e, t, id);
    if t == SelectiveIde && id < other {
      SelectiveMonotone(mem, FirstSelective(mem, e), id - Links(mem, e), other - Links(mem, e));
    }
  }

  predicate BlockEnabled(mem: seq<u32>, e: nat, t: IdeType, id: nat)
    requires Laid(mem, e) && IsBlock(mem, e, t, id)
  {
    Word(mem, ControlAt(mem, e, t, id)) % 2 == 1
  }

  function StreamId(control: u32): nat { control / 0x100_0000 }

  // ------------------------------------------------------------ changing one block

  /** Layout survives every change that leaves the capability register and the capability
      registers of the selective blocks alone. */
  predicate KeepsLayout(mem: seq<u32>, mem': seq<u32>, e: nat)
    requires Laid(mem, e)
  {
    && |mem'| == |mem| && mem'[e + 1] == mem[e + 1]
    && forall k | 0 <= k < Selectives(mem, e) ::
        AddressBlocks(mem', SelectiveAt(mem, FirstSelective(mem, e), k)) ==
          AddressBlocks(mem, SelectiveAt(mem, FirstSelective(mem, e), k))
  }

  lemma {:induction false} SameSelectives(mem: seq<u32>, mem': seq<u32>, e: nat, k: nat)
    requires Laid(mem, e) && KeepsLayout(mem, mem', e) && k <= Selectives(mem, e)
    ensures SelectiveAt(mem', FirstSelective(mem, e), k) == SelectiveAt(mem, FirstSelective(mem, e), k)
  {
    if k > 0 {
      SameSelectives(mem, mem', e, k - 1);
    }
  }

  lemma SameLayout(mem: seq<u32>, mem': seq<u32>, e: nat)
    requires Laid(mem, e) && KeepsLayout(mem, mem', e)
    ensures Laid(mem', e)
    ensures forall t, id: nat :: IsBlock(mem', e, t, id) <==> IsBlock(mem, e, t, id)
    ensures forall t, id: nat | IsBlock(mem, e, t, id) :: BlockAt(mem', e, t, id) == BlockAt(mem, e, t, id)
  {
    SameSelectives(mem, mem', e, Selectives(mem, e));
    forall t, id: nat | IsBlock(mem, e, t, id) ensures BlockAt(mem', e, t, id) == BlockAt(mem, e, t, id) {
      if t == SelectiveIde {
        SameSelectives(mem, mem', e, id - Links(mem, e));
      }
    }
  }

  /** The dwords from `lo` to `hi` may differ, all others are the same. */
  predicate SameOutside(mem: seq<u32>, mem': seq<u32>, lo: nat, hi: nat) {
    |mem'| == |mem| && forall k | 0 <= k < |mem| && !(lo <= k < hi) :: mem'[k] == mem[k]
  }

  /** The same blocks at the same places, and all but `id` enabled or not as before. */
  ghost predicate BlocksKept(mem: seq<u32>, mem': seq<u32>, e: nat, id: nat)
    requires Laid(mem, e)
  {
    && Laid(mem', e) && Links(mem', e) == Links(mem, e) && Selectives(mem', e) == Selectives(mem, e)
    && (forall u, other: nat | IsBlock(mem, e, u, other) :: BlockAt(mem', e, u, other) == BlockAt(mem, e, u, other))
    && (forall u, other: nat | IsBlock(mem, e, u, other) && other != id ::
          BlockEnabled(mem', e, u, other) == BlockEnabled(mem, e, u, other))
  }

  /** Writes inside one block, behind the capability register of a selective one, touch nothing else:
      the layout and every other block's control register stay. */
  lemma OtherBlocksKept(mem: seq<u32>, mem': seq<u32>, e: nat, t: IdeType, id: nat)
    requires Laid(mem, e) && IsBlock(mem, e, t, id)
    requires SameOutside(mem, mem', ControlAt(mem, e, t, id), BlockAt(mem, e, t, id) + BlockSize(mem, e, t, id))
    ensures KeepsLayout(mem, mem', e) && BlocksKept(mem, mem', e, id)
  {
    var lo, hi := ControlAt(mem, e, t, id), BlockAt(mem, e, t, id) + BlockSize(mem, e, t, id);
    BlocksApart(mem, e, t, id, t, id);
    forall k: nat | k < Selectives(mem, e)
      ensures Word(mem', SelectiveAt(mem, FirstSelective(mem, e), k)) ==
        Word(mem, SelectiveAt(mem, FirstSelective(mem, e), k))
    {
      CapabilityOutside(mem, e, t, id, Links(mem, e) + k);
    }
    SameLayout(mem, mem', e);
    forall u, other: nat | IsBlock(mem, e, u, other) && other != id
      ensures Word(mem', ControlAt(mem, e, u, other)) == Word(mem, ControlAt(mem, e, u, other))
    {
      BlocksApart(mem, e, t, id, u, other);
      BlocksApart(mem, e, u, other, t, id);
    }
  }

  /** The capability register of a selective block is not behind any block's control register. */
  lemma CapabilityOutside(mem: seq<u32>, e: nat, t: IdeType, id: nat, other: nat)
    requires Laid(mem, e) && IsBlock(mem, e, t, id) && IsBlock(mem, e, SelectiveIde, other)
    ensures var p := BlockAt(mem, e, SelectiveIde, other);
      p < ControlAt(mem, e, t, id) || BlockAt(mem, e, t, id) + BlockSize(mem, e, t, id) <= p
  {
    BlocksApart(mem, e, t, id, SelectiveIde, other);
    BlocksApart(mem, e, SelectiveIde, other, t, id);
  }

  // ------------------------------------------------------------ the walkers

  predicate AllEnabledBelow(mem: seq<u32>, e: nat, t: IdeType, n: nat)
    requires Laid(mem, e)
  {
    forall k: nat | k < n && IsBlock(mem, e, t, k) :: BlockEnabled(mem, e, t, k)
  }

  /** One step of a search over the selective blocks. */
  lemma SelectiveStep(mem: seq<u32>, e: nat, i: nat, offset: nat)
    requires Laid(mem, e) && IsBlock(mem, e, SelectiveIde, i)
    requires offset == SelectiveAt(mem, FirstSelective(mem, e), i - Links(mem, e))
    ensures offset + SELECTIVE_DWORDS <= |mem|
    ensures offset + SELECTIVE_DWORDS + mem[offset] % 16 * ADDRESS_DWORDS ==
      SelectiveAt(mem, FirstSelective(mem, e), i + 1 - Links(mem, e))
    ensures BlockEnabled(mem, e, SelectiveIde, i) <==> mem[offset + 1] % 2 == 1
    ensures AllEnabledBelow(mem, e, SelectiveIde, i) && mem[offset + 1] % 2 == 1 ==>
      AllEnabledBelow(mem, e, SelectiveIde, i + 1)
  {
    BlockInside(mem, e, SelectiveIde, i);
  }

  /** One step of a search over the link blocks. */
  lemma LinkStep(mem: seq<u32>, e: nat, i: nat, offset: nat)
    requires Laid(mem, e) && AtLink(mem, e, i, offset) && i < Links(mem, e)
    ensures offset < |mem| && (BlockEnabled(mem, e, LinkIde, i) <==> mem[offset] % 2 == 1)
    ensures mem[offset] % 2 == 1 ==> AtLink(mem, e, i + 1, offset + LINK_DWORDS)
  {
    BlockInside(mem, e, LinkIde, i);
  }

  /** A search over the link blocks has come to block `i`. */
  ghost predicate AtLink(mem: seq<u32>, e: nat, i: nat, offset: nat)
    requires Laid(mem, e)
  {
    i <= Links(mem, e) && offset == LinkAt(e, i) && AllEnabledBelow(mem, e, LinkIde, i)
  }

  /** A search over the selective blocks has come to block `i`. */
  ghost predicate AtSelective(mem: seq<u32>, e: nat, i: nat, offset: nat)
    requires Laid(mem, e)
  {
    && Links(mem, e) <= i && AllEnabledBelow(mem, e, SelectiveIde, i)
    && offset == SelectiveAt(mem, FirstSelective(mem, e), i - Links(mem, e))
  }

  predicate LowestFree(mem: seq<u32>, e: nat, t: IdeType, block: nat)
    requires Laid(mem, e)
  {
    IsBlock(mem, e, t, block) && !BlockEnabled(mem, e, t, block) && AllEnabledBelow(mem, e, t, block)
  }

  /** Every selective block before `id` has one address block, as the source asserts on the way. */
  predicate Reachable(mem: seq<u32>, e: nat, t: IdeType, id: nat)
    requires Laid(mem, e)
  {
    && IsBlock(mem, e, t, id)
    && (t == SelectiveIde ==> forall k: nat | k < id && IsBlock(mem, e, SelectiveIde, k) ::
          AddressBlocks(mem, BlockAt(mem, e, SelectiveIde, k)) == 1)
  }

  /** What setup_ide_ecap_regs writes: the association registers and the stream control register. */
  datatype BlockValues = BlockValues(control: u32, rid1: u32, rid2: u32, addr1: u32, addr2: u32, addr3: u32)

  /** How many dwords a setup needs from the start of its block on. */
  function SetupReach(t: IdeType): nat { if t == LinkIde then 1 else 8 }

  function SetupImage(mem: seq<u32>, p: nat, t: IdeType, v: BlockValues): (r: seq<u32>)
    requires p + SetupReach(t) <= |mem|
    ensures |r| == |mem|
  {
    if t == LinkIde then mem[p := v.control]
    else mem[p + 1 := v.control][p + 3 := v.rid1][p + 4 := v.rid2][p + 5 := v.addr1][p + 6 := v.addr2][p + 7 := v.addr3]
  }

  /** The dwords that a setup of the block at `p` leaves behind; all others are as they were. */
  predicate BlockWritten(mem: seq<u32>, mem': seq<u32>, p: nat, t: IdeType, v: BlockValues)
    requires p + SetupReach(t) <= |mem| == |mem'|
  {
    match t
    case LinkIde => mem'[p] == v.control && forall k | 0 <= k < |mem| && k != p :: mem'[k] == mem[k]
    case SelectiveIde =>
      && mem'[p + 1] == v.control && mem'[p + 3] == v.rid1 && mem'[p + 4] == v.rid2
      && mem'[p + 5] == v.addr1 && mem'[p + 6] == v.addr2 && mem'[p + 7] == v.addr3
      && mem'[p] == mem[p] && mem'[p + 2] == mem[p + 2]
      && forall k | 0 <= k < |mem| && (k < p || p + 8 <= k) :: mem'[k] == mem[k]
  }

  /** Where each value of a setup ends up. */
  lemma SetupWrites(mem: seq<u32>, mem': seq<u32>, p: nat, t: IdeType, v: BlockValues)
    requires p + SetupReach(t) <= |mem| == |mem'|
    ensures mem' == SetupImage(mem, p, t, v) <==> BlockWritten(mem, mem', p, t, v)
  {
    if BlockWritten(mem, mem', p, t, v) {
      forall k | 0 <= k < |mem| ensures mem'[k] == SetupImage(mem, p, t, v)[k] {
      }
    }
  }

  /** Setting up a block stays within the block, whatever is written, if and only if it is a link block or a
      selective one with an address block; the source asks this of the blocks before it alone. */
  lemma SetupInsideExactly(mem: seq<u32>, e: nat, t: IdeType, id: nat)
    requires Laid(mem, e) && IsBlock(mem, e, t, id) && BlockAt(mem, e, t, id) + SetupReach(t) <= |mem|
    ensures var p := BlockAt(mem, e, t, id);
      (forall v :: SameOutside(mem, SetupImage(mem, p, t, v), p, p + BlockSize(mem, e, t, id))) <==>
        t == LinkIde || AddressBlocks(mem, p) >= 1
  {
    var p := BlockAt(mem, e, t, id);
    if t == SelectiveIde && AddressBlocks(mem, p) == 0 {
      var v := BlockValues(0, 0, 0, (mem[p + 5] + 1) % TWO_32, 0, 0);
      assert SetupImage(mem, p, t, v)[p + 5] != mem[p + 5];
      assert !SameOutside(mem, SetupImage(mem, p, t, v), p, p + BlockSize(mem, e, t, id));
    }
  }

  /** Setting up a block touches no other block, provided that a selective one has an address block. */
  lemma SetupKeepsOthers(mem: seq<u32>, e: nat, t: IdeType, id: nat, v: BlockValues)
    requires Laid(mem, e) && IsBlock(mem, e, t, id)
    requires t == SelectiveIde ==> AddressBlocks(mem, BlockAt(mem, e, t, id)) >= 1
    ensures BlockAt(mem, e, t, id) + SetupReach(t) <= |mem|
    ensures BlocksKept(mem, SetupImage(mem, BlockAt(mem, e, t, id), t, v), e, id)
  {
    BlockInside(mem, e, t, id);
    OtherBlocksKept(mem, SetupImage(mem, BlockAt(mem, e, t, id), t, v), e, t, id);
  }

  /** Without an address block the address registers spill: the next block's control register receives the
      second one. */
  lemma SetupSpills(mem: seq<u32>, e: nat, id: nat, v: BlockValues)
    requires Laid(mem, e) && IsBlock(mem, e, SelectiveIde, id) && IsBlock(mem, e, SelectiveIde, id + 1)
    requires AddressBlocks(mem, BlockAt(mem, e, SelectiveIde, id)) == 0
    ensures BlockAt(mem, e, SelectiveIde, id) + 8 <= |mem|
    ensures var mem' := SetupImage(mem, BlockAt(mem, e, SelectiveIde, id), SelectiveIde, v);
      mem'[ControlAt(mem, e, SelectiveIde, id + 1)] == v.addr2
  {
    BlockInside(mem, e, SelectiveIde, id + 1);
  }

  /** Enabling the block that a search has found makes the next search go on behind it: it finds a
      block with a greater number, or none. */
  lemma SearchAdvances(mem: seq<u32>, mem': seq<u32>, e: nat, t: IdeType, id: nat, next: nat)
    requires Laid(mem, e) && LowestFree(mem, e, t, id)
    requires BlocksKept(mem, mem', e, id) && BlockEnabled(mem', e, t, id)
    requires LowestFree(mem', e, t, next)
    ensures id < next
  {
    assert IsBlock(mem, e, t, next);
  }

  /** Configuration space after a block was set up and enabled. */
  function SetupAndEnable(mem: seq<u32>, e: nat, t: IdeType, id: nat, v: BlockValues): seq<u32>
    requires Laid(mem, e) && IsBlock(mem, e, t, id) && BlockAt(mem, e, t, id) + SetupReach(t) <= |mem|
  {
    var mem' := SetupImage(mem, BlockAt(mem, e, t, id), t, v);
    mem'[ControlAt(mem, e, t, id) := WithEnable(mem'[ControlAt(mem, e, t, id)], true)]
  }

  lemma SetupAndEnableInside(mem: seq<u32>, e: nat, t: IdeType, id: nat, v: BlockValues)
    requires Laid(mem, e) && IsBlock(mem, e, t, id)
    requires t == SelectiveIde ==> AddressBlocks(mem, BlockAt(mem, e, t, id)) >= 1
    ensures BlockAt(mem, e, t, id) + SetupReach(t) <= |mem|
    ensures var p, c := BlockAt(mem, e, t, id), ControlAt(mem, e, t, id);
      && SameOutside(mem, SetupAndEnable(mem, e, t, id, v), c, p + BlockSize(mem, e, t, id))
      && SetupAndEnable(mem, e, t, id, v)[c] % 2 == 1
  {
    BlockInside(mem, e, t, id);
  }

  lemma SetupAndEnableKeeps(mem: seq<u32>, e: nat, t: IdeType, id: nat, v: BlockValues)
    requires Laid(mem, e) && IsBlock(mem, e, t, id)
    requires t == SelectiveIde ==> AddressBlocks(mem, BlockAt(mem, e, t, id)) >= 1
    ensures BlockAt(mem, e, t, id) + SetupReach(t) <= |mem|
    ensures var mem' := SetupAndEnable(mem, e, t, id, v); BlocksKept(mem, mem', e, id) && BlockEnabled(mem', e, t, id)
  {
    SetupAndEnableInside(mem, e, t, id, v);
    OtherBlocksKept(mem, SetupAndEnable(mem, e, t, id, v), e, t, id);
  }

  /** Searching, setting up and enabling what was found, and searching again. */
  lemma SearchSetupSearch(mem: seq<u32>, e: nat, t: IdeType, id: nat, v: BlockValues, next: nat)
    requires Laid(mem, e) && LowestFree(mem, e, t, id)
    requires t == SelectiveIde ==> AddressBlocks(mem, BlockAt(mem, e, t, id)) >= 1
    ensures BlockAt(mem, e, t, id) + SetupReach(t) <= |mem| && Laid(SetupAndEnable(mem, e, t, id, v), e)
    ensures LowestFree(SetupAndEnable(mem, e, t, id, v), e, t, next) ==> id < next
  {
    SetupAndEnableKeeps(mem, e, t, id, v);
    if LowestFree(SetupAndEnable(mem, e, t, id, v), e, t, next) {
      SearchAdvances(mem, SetupAndEnable(mem, e, t, id, v), e, t, id, next);
    }
  }

  /** As the source asserts when it walks over them. */
  ghost predicate OneAddressBlockEach(mem: seq<u32>, e: nat)
    requires Laid(mem, e)
  {
    forall k: nat | IsBlock(mem, e, SelectiveIde, k) :: AddressBlocks(mem, BlockAt(mem, e, SelectiveIde, k)) == 1
  }

  /** Every block has a number of eight bits. */
  predicate Numbered(mem: seq<u32>, e: nat)
    requires HasCapability(mem, e)
  {
    Links(mem, e) + Selectives(mem, e) <= TWO_8
  }

  /** The block a search found is set up and enabled. */
  ghost predicate Taken(mem: seq<u32>, mem': seq<u32>, e: nat, t: IdeType, id: nat, v: BlockValues) {
    && Laid(mem, e) && LowestFree(mem, e, t, id) && BlockAt(mem, e, t, id) + SetupReach(t) <= |mem|
    && (t == SelectiveIde ==> AddressBlocks(mem, BlockAt(mem, e, t, id)) >= 1)
    && mem' == SetupAndEnable(mem, e, t, id, v) && Laid(mem', e) && Numbered(mem, e) && Numbered(mem', e)
  }

  lemma TakenAdvances(mem: seq<u32>, mem': seq<u32>, e: nat, t: IdeType, id: nat, v: BlockValues, next: nat)
    requires Taken(mem, mem', e, t, id, v) && LowestFree(mem', e, t, next)
    ensures id < next < TWO_8
  {
    SearchSetupSearch(mem, e, t, id, v, next);
  }

  /** What a search leads to where the walkers' assertions hold. */
  ghost predicate Free(mem: seq<u32>, e: nat, t: IdeType, id: nat) {
    Laid(mem, e) && LowestFree(mem, e, t, id) && OneAddressBlockEach(mem, e) && Numbered(mem, e)
  }

  /** The number leads back to the block, before and after it is set up. */
  lemma FoundReachable(mem: seq<u32>, e: nat, t: IdeType, id: nat, v: BlockValues)
    requires Free(mem, e, t, id)
    ensures Reachable(mem, e, t, id) && BlockAt(mem, e, t, id) + SetupReach(t) <= |mem|
    ensures var mem' := SetupImage(mem, BlockAt(mem, e, t, id), t, v);
      Laid(mem', e) && Reachable(mem', e, t, id) && BlockAt(mem', e, t, id) == BlockAt(mem, e, t, id)
    ensures Taken(mem, SetupAndEnable(mem, e, t, id, v), e, t, id, v)
  {
    SetupKeepsOthers(mem, e, t, id, v);
    OtherBlocksKept(mem, SetupImage(mem, BlockAt(mem, e, t, id), t, v), e, t, id);
    SetupAndEnableKeeps(mem, e, t, id, v);
  }

  /** The number that a search returns names the block it found unless the number has overflowed. */
  lemma FoundIdNames(mem: seq<u32>, e: nat, t: IdeType, block: nat)
    requires Laid(mem, e) && IsBlock(mem, e, t, block)
    ensures block % TWO_8 == block <==> block < TWO_8
    ensures t == LinkIde || Links(mem, e) + Selectives(mem, e) <= TWO_8 ==> block < TWO_8
  {
  }

  ghost predicate HasFreeBlock(mem: seq<u32>, e: nat, t: IdeType)
    requires Laid(mem, e)
  {
    exists k: nat :: IsBlock(mem, e, t, k) && !BlockEnabled(mem, e, t, k)
  }

  predicate HasDisabled(rp: RootPort) { exists i :: 0 <= i < |rp.streams| && !rp.streams[i].Enabled() }

  predicate LowestDisabled(rp: RootPort, i: nat) {
    i < |rp.streams| && !rp.streams[i].Enabled() && forall k | 0 <= k < i :: rp.streams[k].Enabled()
  }

  /** Setting or clearing the enable bit of one block touches no other. */
  lemma EnableKeeps(mem: seq<u32>, e: nat, t: IdeType, id: nat, enable: bool)
    requires Laid(mem, e) && IsBlock(mem, e, t, id)
    ensures ControlAt(mem, e, t, id) < |mem|
    ensures var mem' := mem[ControlAt(mem, e, t, id) := WithEnable(mem[ControlAt(mem, e, t, id)], enable)];
      BlocksKept(mem, mem', e, id) && BlockEnabled(mem', e, t, id) == enable
  {
    BlockInside(mem, e, t, id);
    OtherBlocksKept(mem, mem[ControlAt(mem, e, t, id) := WithEnable(mem[ControlAt(mem, e, t, id)], enable)], e, t, id);
  }

  class ConfigSpace {
    const regs: array<u32>

    constructor (space: array<u32>)
      ensures regs == space
    {
      regs := space;
    }

    /** find_free_rp_stream_index_and_ide_id, as far as the capability goes: the lowest block of the
        wanted kind that is not enabled.  Its number is stored in eight bits. */
    method FindFreeBlock(e: nat, t: IdeType) returns (found: bool, ideId: u8, ghost block: nat)
      requires Laid(regs[..], e)
      ensures found <==> HasFreeBlock(regs[..], e, t)
      ensures found ==> LowestFree(regs[..], e, t, block) && ideId == block % TWO_8
    {
      var i: nat;
      if t == LinkIde {
        found, i := FindFreeLink(e);
      } else {
        found, i := FindFreeSelective(e);
      }
      ideId, block := i % TWO_8, i;
    }

    method FindFreeLink(e: nat) returns (found: bool, i: nat)
      requires Laid(regs[..], e)
      ensures found ==> LowestFree(regs[..], e, LinkIde, i)
      ensures !found ==> AllEnabledBelow(regs[..], e, LinkIde, Links(regs[..], e))
    {
      ghost var mem := regs[..];
      var n := LinkBlocks(regs[e + 1]);
      var offset: nat := e + 3;
      i := 0;
      while i < n
        invariant i <= n && AtLink(mem, e, i, offset)
      {
        LinkStep(mem, e, i, offset);
        if regs[offset] % 2 == 0 {
          return true, i;
        }
        offset := offset + LINK_DWORDS;
        i := i + 1;
      }
      found := false;
    }

    method FindFreeSelective(e: nat) returns (found: bool, i: nat)
      requires Laid(regs[..], e)
      ensures found ==> LowestFree(regs[..], e, SelectiveIde, i)
      ensures !found ==> AllEnabledBelow(regs[..], e, SelectiveIde, Links(regs[..], e) + Selectives(regs[..], e))
    {
      ghost var mem := regs[..];
      var links, n := LinkBlocks(regs[e + 1]), SelectiveBlocks(regs[e + 1]);
      var offset: nat := e + 3 + links * LINK_DWORDS;
      i := links;
      while i < links + n
        invariant links <= i <= links + n && AtSelective(mem, e, i, offset)
      {
        SelectiveStep(mem, e, i, offset);
        if regs[offset + 1] % 2 == 0 {
          return true, i;
        }
        offset := offset + 3 + 2 + regs[offset] % 16 * ADDRESS_DWORDS;
        i := i + 1;
      }
      found := false;
    }

    /** find_free_rp_stream_index_and_ide_id for a root port: a free block of the capability and the
        lowest stream of the KCBAR that is not enabled; it fails when either is missing. */
    method FindFreeRpStreamIndexAndIdeId(kcbar: RegisterBlock, e: nat, t: IdeType)
      returns (found: bool, rpStreamIndex: u8, ideId: u8, ghost block: nat)
      requires Laid(regs[..], e) && kcbar.Valid()
      ensures found <==> HasFreeBlock(regs[..], e, t) && HasDisabled(kcbar.Abs())
      ensures found ==> LowestFree(regs[..], e, t, block) && ideId == block % TWO_8
      ensures found ==> LowestDisabled(kcbar.Abs(), rpStreamIndex)
    {
      rpStreamIndex := 0;
      found, ideId, block := FindFreeBlock(e, t);
      if found {
        found, rpStreamIndex := FindFreeStream(kcbar);
      }
    }

    method FindFreeStream(kcbar: RegisterBlock) returns (found: bool, index: u8)
      requires kcbar.Valid()
      ensures found <==> HasDisabled(kcbar.Abs())
      ensures found ==> LowestDisabled(kcbar.Abs(), index)
    {
      for i := 0 to DecodeCaps(kcbar.regs[0]).streams
        invariant forall k | 0 <= k < i :: kcbar.Abs().streams[k].Enabled()
      {
        var control := kcbar.ReadStreamReg(i, CONTROL);
        if control % 2 == 0 {
          return true, i;
        }
      }
      return false, 0;
    }

    /** Finds a block by its number; the source asserts one address block in every selective block
        it steps over. */
    method GetIdeRegBlockOffset(e: nat, t: IdeType, ideId: u8) returns (offset: nat)
      requires Laid(regs[..], e) && Reachable(regs[..], e, t, ideId)
      ensures offset == BlockAt(regs[..], e, t, ideId)
    {
      ghost var mem := regs[..];
      var links := LinkBlocks(regs[e + 1]);
      if t == LinkIde {
        return e + 3 + LINK_DWORDS * ideId;
      }
      offset := e + 3 + LINK_DWORDS * links;
      for i := links to ideId
        invariant offset == SelectiveAt(mem, FirstSelective(mem, e), i - links)
      {
        assert IsBlock(mem, e, SelectiveIde, i);
        assert AddressBlocks(mem, BlockAt(mem, e, SelectiveIde, i)) == 1;
        offset := offset + SELECTIVE_DWORDS;
        offset := offset + ADDRESS_DWORDS;
      }
    }

    /** Sets or clears the enable bit of one block; nothing else in configuration space changes. */
    method EnableIdeStreamInEcap(e: nat, t: IdeType, ideId: u8, enable: bool)
      requires Laid(regs[..], e) && Reachable(regs[..], e, t, ideId)
      modifies regs
      ensures old(ControlAt(regs[..], e, t, ideId)) < regs.Length
      ensures regs[..] ==
        old(regs[..][ControlAt(regs[..], e, t, ideId) := WithEnable(regs[ControlAt(regs[..], e, t, ideId)], enable)])
      ensures BlocksKept(old(regs[..]), regs[..], e, ideId) && BlockEnabled(regs[..], e, t, ideId) == enable
    {
      ghost var mem := regs[..];
      var offset := GetIdeRegBlockOffset(e, t, ideId);
      EnableKeeps(mem, e, t, ideId, enable);
      if t == SelectiveIde {
        offset := offset + 1;
      }
      regs[offset] := WithEnable(regs[offset], enable);
      assert regs[..] == mem[offset := WithEnable(mem[offset], enable)];
    }

    method IsIdeEnabled(e: nat, t: IdeType, ideId: u8) returns (r: bool)
      requires Laid(regs[..], e) && Reachable(regs[..], e, t, ideId)
      ensures r == BlockEnabled(regs[..], e, t, ideId)
    {
      var offset := GetIdeRegBlockOffset(e, t, ideId);
      BlockInside(regs[..], e, t, ideId);
      if t == SelectiveIde {
        offset := offset + 1;
      }
      return regs[offset] % 2 == 1;
    }

    method SetupIdeEcapRegs(e: nat, t: IdeType, ideId: u8, v: BlockValues)
      requires Laid(regs[..], e) && Reachable(regs[..], e, t, ideId)
      requires BlockAt(regs[..], e, t, ideId) + SetupReach(t) <= regs.Length
      modifies regs
      ensures regs[..] == SetupImage(old(regs[..]), old(BlockAt(regs[..], e, t, ideId)), t, v)
      ensures BlockWritten(old(regs[..]), regs[..], old(BlockAt(regs[..], e, t, ideId)), t, v)
    {
      var offset := GetIdeRegBlockOffset(e, t, ideId);
      WriteBlock(offset, t, v);
    }

    /** Sets up and enables the block that a search found. */
    method TakeBlock(e: nat, t: IdeType, id: u8, v: BlockValues)
      requires Free(regs[..], e, t, id)
      modifies regs
      ensures Taken(old(regs[..]), regs[..], e, t, id, v)
    {
      FoundReachable(regs[..], e, t, id, v);
      SetupIdeEcapRegs(e, t, id, v);
      EnableIdeStreamInEcap(e, t, id, true);
    }

    /** The calls in their order: search, set up, enable, search.  The second search finds a block with a greater
        number, or none. */
    method TakeAndSearch(e: nat, t: IdeType, v: BlockValues) returns (found: bool, ideId: u8, again: bool, nextId: u8)
      requires Laid(regs[..], e) && OneAddressBlockEach(regs[..], e) && Numbered(regs[..], e)
      modifies regs
      ensures found <==> old(HasFreeBlock(regs[..], e, t))
      ensures if found then Taken(old(regs[..]), regs[..], e, t, ideId, v) else !again && regs[..] == old(regs[..])
      ensures found ==> (again <==> HasFreeBlock(regs[..], e, t)) && (again ==> ideId < nextId)
    {
      again, nextId := false, 0;
      ghost var mem := regs[..];
      found, ideId := FindNumbered(e, t);
      if found {
        TakeBlock(e, t, ideId, v);
        again, nextId := FindNumbered(e, t);
        if again {
          TakenAdvances(mem, regs[..], e, t, ideId, v, nextId);
        }
      }
    }

    /** The search where every block has a number of eight bits. */
    method FindNumbered(e: nat, t: IdeType) returns (found: bool, ideId: u8)
      requires Laid(regs[..], e) && Numbered(regs[..], e)
      ensures found <==> HasFreeBlock(regs[..], e, t)
      ensures found ==> LowestFree(regs[..], e, t, ideId)
    {
      ghost var block;
      found, ideId, block := FindFreeBlock(e, t);
      if found {
        FoundIdNames(regs[..], e, t, block);
      }
    }

    /** The association registers of a selective block, then the stream control register. */
    method WriteBlock(start: nat, t: IdeType, v: BlockValues)
      requires start + SetupReach(t) <= regs.Length
      modifies regs
      ensures regs[..] == SetupImage(old(regs[..]), start, t, v)
      ensures BlockWritten(old(regs[..]), regs[..], start, t, v)
    {
      var offset := start;
      if t == SelectiveIde {
        offset := offset + 1;
      }
      var controlOffset := offset;
      if t == SelectiveIde {
        offset := offset + 2;
        regs[offset] := v.rid1;
        offset := offset + 1;
        regs[offset] := v.rid2;
        offset := offset + 1;
        regs[offset] := v.addr1;
        offset := offset + 1;
        regs[offset] := v.addr2;
        offset := offset + 1;
        regs[offset] := v.addr3;
      }
      regs[controlOffset] := v.control;
      SetupWrites(old(regs[..]), regs[..], start, t, v);
    }
  }

  // ------------------------------------------------------------ is a stream id in use?

  predicate Carries(control: u32, streamId: u8) { control % 2 == 1 && StreamId(control) == streamId }

  /** Some enabled block of the capability carries the stream id. */
  ghost predicate CapabilityUses(mem: seq<u32>, e: nat, streamId: u8)
    requires Laid(mem, e)
  {
    exists t, k: nat :: IsBlock(mem, e, t, k) && Carries(Word(mem, ControlAt(mem, e, t, k)), streamId)
  }

  predicate LinkUses(mem: seq<u32>, e: nat, n: nat, streamId: u8) {
    exists k :: 0 <= k < n && Carries(Word(mem, LinkAt(e, k)), streamId)
  }

  /** A walk over `n` selective blocks, were the first one at `first`. */
  predicate WalkUses(mem: seq<u32>, first: nat, n: nat, streamId: u8) {
    exists k: nat | k < n :: StopCarries(mem, first, k, streamId)
  }

  /** The `k`-th stop of the walk takes the dword behind it for a control register. */
  predicate StopCarries(mem: seq<u32>, first: nat, k: nat, streamId: u8) {
    Carries(Word(mem, SelectiveAt(mem, first, k) + 1), streamId)
  }

  /** Where the check starts its walk over the selective blocks: the step over the control register
      is taken only if there are link blocks. */
  function WalkStart(mem: seq<u32>, e: nat): nat
    requires HasCapability(mem, e)
  {
    if Links(mem, e) > 0 then FirstSelective(mem, e) else e + 2
  }

  /** The walk stays in configuration space. */
  predicate WalkInside(mem: seq<u32>, e: nat)
    requires HasCapability(mem, e)
  {
    SelectiveAt(mem, WalkStart(mem, e), Selectives(mem, e)) <= |mem|
  }

  predicate CheckSays(mem: seq<u32>, e: nat, streamId: u8)
    requires HasCapability(mem, e)
  {
    LinkUses(mem, e, Links(mem, e), streamId) || WalkUses(mem, WalkStart(mem, e), Selectives(mem, e), streamId)
  }

  /** An enabled stream of the KCBAR carries the stream id. */
  predicate KcbarUses(rp: RootPort, n: nat, streamId: u8)
    requires n <= |rp.streams|
  {
    exists k :: 0 <= k < n && Carries(rp.streams[k].control, streamId)
  }

  /** check_stream_id_used_in_rootport */
  method CheckStreamIdUsed(kcbar: RegisterBlock, space: ConfigSpace, e: nat, streamId: u8) returns (used: bool)
    requires kcbar.Valid() && Laid(space.regs[..], e)
    requires WalkInside(space.regs[..], e)
    ensures used <==> KcbarUses(kcbar.Abs(), |kcbar.Abs().streams|, streamId) || CheckSays(space.regs[..], e, streamId)
  {
    used := WalkStreams(kcbar, streamId);
    if !used {
      used := WalkCapability(space, e, streamId);
    }
  }

  method WalkCapability(space: ConfigSpace, e: nat, streamId: u8) returns (used: bool)
    requires Laid(space.regs[..], e)
    requires WalkInside(space.regs[..], e)
    ensures used <==> CheckSays(space.regs[..], e, streamId)
  {
    var offset := e + 1;
    var cap := space.regs[offset];
    offset := offset + 1;
    if LinkBlocks(cap) > 0 {
      offset := offset + 1;
      used, offset := WalkLinks(space, e, streamId);
      if used {
        return true;
      }
    }
    used := WalkSelective(space, offset, SelectiveBlocks(cap), streamId);
  }

  lemma NextStream(rp: RootPort, n: nat, streamId: u8)
    requires n < |rp.streams|
    ensures KcbarUses(rp, n + 1, streamId) <==> KcbarUses(rp, n, streamId) || Carries(rp.streams[n].control, streamId)
  {
  }

  lemma UsesMore(rp: RootPort, n: nat, m: nat, streamId: u8)
    requires n <= m <= |rp.streams| && KcbarUses(rp, n, streamId)
    ensures KcbarUses(rp, m, streamId)
  {
  }

  method WalkStreams(kcbar: RegisterBlock, streamId: u8) returns (used: bool)
    requires kcbar.Valid()
    ensures used <==> KcbarUses(kcbar.Abs(), |kcbar.Abs().streams|, streamId)
  {
    ghost var rp := kcbar.Abs();
    used := false;
    for i := 0 to DecodeCaps(kcbar.regs[0]).streams
      invariant kcbar.Abs() == rp && !KcbarUses(rp, i, streamId)
    {
      var control := kcbar.ReadStreamReg(i, CONTROL);
      NextStream(rp, i, streamId);
      if Carries(control, streamId) {
        UsesMore(rp, i + 1, |rp.streams|, streamId);
        return true;
      }
    }
  }

  method WalkLinks(space: ConfigSpace, e: nat, streamId: u8) returns (used: bool, offset: nat)
    requires Laid(space.regs[..], e)
    ensures used <==> LinkUses(space.regs[..], e, Links(space.regs[..], e), streamId)
    ensures !used ==> offset == FirstSelective(space.regs[..], e)
  {
    ghost var mem := space.regs[..];
    offset := e + 3;
    for i := 0 to LinkBlocks(space.regs[e + 1])
      invariant offset == LinkAt(e, i) && !LinkUses(mem, e, i, streamId)
    {
      BlockInside(mem, e, LinkIde, i);
      if Carries(space.regs[offset], streamId) {
        return true, offset;
      }
      offset := offset + LINK_DWORDS;
    }
    used := false;
  }

  method WalkSelective(space: ConfigSpace, first: nat, n: nat, streamId: u8) returns (used: bool)
    requires SelectiveAt(space.regs[..], first, n) <= space.regs.Length
    ensures used <==> WalkUses(space.regs[..], first, n, streamId)
  {
    ghost var mem := space.regs[..];
    var offset := first;
    for i := 0 to n
      invariant offset == SelectiveAt(mem, first, i) && !WalkUses(mem, first, i, streamId)
    {
      SelectiveMonotone(mem, first, i, n);
      var cap := space.regs[offset];
      if Carries(space.regs[offset + 1], streamId) {
        assert StopCarries(mem, first, i, streamId);
        return true;
      }
      offset := offset + 3 + 2 + cap % 16 * ADDRESS_DWORDS;
    }
    return false;
  }

  // ------------------------------------------------------------ when the check is exact

  predicate BlockCarries(mem: seq<u32>, e: nat, t: IdeType, k: nat, streamId: u8)
    requires HasCapability(mem, e) && IsBlock(mem, e, t, k)
  {
    Carries(Word(mem, ControlAt(mem, e, t, k)), streamId)
  }

  lemma LinksCarry(mem: seq<u32>, e: nat, streamId: u8)
    requires Laid(mem, e)
    ensures LinkUses(mem, e, Links(mem, e), streamId) <==>
      exists k: nat :: IsBlock(mem, e, LinkIde, k) && BlockCarries(mem, e, LinkIde, k, streamId)
  {
    if LinkUses(mem, e, Links(mem, e), streamId) {
      var k :| 0 <= k < Links(mem, e) && Carries(Word(mem, LinkAt(e, k)), streamId);
      assert IsBlock(mem, e, LinkIde, k) && BlockCarries(mem, e, LinkIde, k, streamId);
    }
  }

  /** A walk that starts at the first selective block sees every selective block. */
  lemma SelectivesCarry(mem: seq<u32>, e: nat, streamId: u8)
    requires Laid(mem, e)
    ensures WalkUses(mem, FirstSelective(mem, e), Selectives(mem, e), streamId) <==>
      exists k: nat :: IsBlock(mem, e, SelectiveIde, k) && BlockCarries(mem, e, SelectiveIde, k, streamId)
  {
    var l, first := Links(mem, e), FirstSelective(mem, e);
    if k: nat :| k < Selectives(mem, e) && StopCarries(mem, first, k, streamId) {
      assert BlockCarries(mem, e, SelectiveIde, l + k, streamId);
    }
    if k: nat :| IsBlock(mem, e, SelectiveIde, k) && BlockCarries(mem, e, SelectiveIde, k, streamId) {
      assert StopCarries(mem, first, k - l, streamId);
    }
  }

  /** With link blocks, or without selective ones, the check looks at exactly the blocks there are. */
  lemma CheckExact(mem: seq<u32>, e: nat, streamId: u8)
    requires Laid(mem, e) && (Links(mem, e) > 0 || Selectives(mem, e) == 0)
    ensures CheckSays(mem, e, streamId) <==> CapabilityUses(mem, e, streamId)
  {
    LinksCarry(mem, e, streamId);
    SelectivesCarry(mem, e, streamId);
    if t, k: nat :| IsBlock(mem, e, t, k) && Carries(Word(mem, ControlAt(mem, e, t, k)), streamId) {
      assert BlockCarries(mem, e, t, k, streamId);
    }
  }

  /** Without address blocks the selective blocks stand five dwords apart. */
  lemma {:induction false} PlainAt(mem: seq<u32>, first: nat, k: nat)
    requires forall j | 0 <= j < k :: AddressBlocks(mem, first + SELECTIVE_DWORDS * j) == 0
    ensures SelectiveAt(mem, first, k) == first + SELECTIVE_DWORDS * k
  {
    if k > 0 {
      PlainAt(mem, first, k - 1);
    }
  }

  /** Configuration space has 4096 bytes. */
  const SPACE_DWORDS: nat := 1024

  /** The blocks that this capability register announces fit into configuration space. */
  predicate Fit(cap: u32, e: nat) {
    LinkAt(e, LinkBlocks(cap)) + SELECTIVE_DWORDS * SelectiveBlocks(cap) <= SPACE_DWORDS
  }

  /** A configuration space in which only the first selective block is enabled, with a stream id. */
  function FirstOnly(cap: u32, e: nat, streamId: u8): (mem: seq<u32>)
    requires e + 3 + SELECTIVE_DWORDS <= SPACE_DWORDS
    ensures |mem| == SPACE_DWORDS
    ensures forall k | 0 <= k < |mem| ::
      mem[k] == if k == e + 1 then cap else if k == e + 4 then 1 + 0x100_0000 * streamId else 0
  {
    seq(SPACE_DWORDS, _ => 0)[e + 1 := cap][e + 4 := 1 + 0x100_0000 * streamId]
  }

  lemma FirstOnlyUsed(cap: u32, e: nat, streamId: u8)
    requires LinkBlocks(cap) == 0 && SelectiveBlocks(cap) > 0 && Fit(cap, e)
    ensures Laid(FirstOnly(cap, e, streamId), e)
    ensures CapabilityUses(FirstOnly(cap, e, streamId), e, streamId)
  {
    var mem := FirstOnly(cap, e, streamId);
    PlainAt(mem, e + 3, SelectiveBlocks(cap));
    assert IsBlock(mem, e, SelectiveIde, 0) && ControlAt(mem, e, SelectiveIde, 0) == e + 4;
    assert Carries(1 + 0x100_0000 * streamId, streamId);
  }

  /** Without link blocks the walk starts one dword early and misses that stream. */
  lemma CheckMisses(cap: u32, e: nat, streamId: u8)
    requires LinkBlocks(cap) == 0 && SelectiveBlocks(cap) > 0 && Fit(cap, e)
    ensures Laid(FirstOnly(cap, e, streamId), e)
    ensures CapabilityUses(FirstOnly(cap, e, streamId), e, streamId)
    ensures !CheckSays(FirstOnly(cap, e, streamId), e, streamId)
  {
    var mem := FirstOnly(cap, e, streamId);
    var start := WalkStart(mem, e);
    FirstOnlyUsed(cap, e, streamId);
    forall k: nat | k < SelectiveBlocks(cap) ensures !StopCarries(mem, start, k, streamId) {
      PlainAt(mem, start, k);
    }
  }

  /** The check tells the truth about every configuration space with this capability register. */
  ghost predicate ExactFor(cap: u32, e: nat, streamId: u8) {
    forall mem: seq<u32> | |mem| == SPACE_DWORDS && Laid(mem, e) && mem[e + 1] == cap ::
      CheckSays(mem, e, streamId) <==> CapabilityUses(mem, e, streamId)
  }

  /** It does so if and only if there are link blocks or no selective ones, unless there is no such
      configuration space at all. */
  lemma CheckExactExactlyWhen(cap: u32, e: nat, streamId: u8)
    ensures ExactFor(cap, e, streamId) <==> LinkBlocks(cap) > 0 || SelectiveBlocks(cap) == 0 || !Fit(cap, e)
  {
    if LinkBlocks(cap) > 0 || SelectiveBlocks(cap) == 0 || !Fit(cap, e) {
      forall mem: seq<u32> | |mem| == SPACE_DWORDS && Laid(mem, e) && mem[e + 1] == cap
        ensures CheckSays(mem, e, streamId) <==> CapabilityUses(mem, e, streamId)
      {
        CheckExact(mem, e, streamId);
      }
    } else {
      CheckMisses(cap, e, streamId);
      assert FirstOnly(cap, e, streamId)[e + 1] == cap;
    }
  }
}
