/** The allocator of key/IV slots: it scans the enabled streams of the root port
    and hands out the lowest triple of slots (PR, NPR, CPL) that none of them uses. */
module SlotAlloc {
  import opened Words
  import opened Kcbar

  const SUB_STREAMS: nat := 3
  const MAP_BITS: nat := 8

  /** ide_key_set_t: a slot for each direction and sub-stream. */
  datatype SlotIds = SlotIds(rxPr: u16, rxNpr: u16, rxCpl: u16, txPr: u16, txNpr: u16, txCpl: u16) {
    function Id(dir: Direction, sub: SubStream): u16 {
      match (dir, sub)
      case (RX, PR) => rxPr case (RX, NPR) => rxNpr case (RX, CPL) => rxCpl
      case (TX, PR) => txPr case (TX, NPR) => txNpr case (TX, CPL) => txCpl
    }
  }

  function Triple(t: nat): (k: SlotIds)
    requires t < 0x1000
    ensures forall dir, sub :: k.Id(dir, sub) == 3 * t + sub.Index()
  {
    SlotIds(3 * t, 3 * t + 1, 3 * t + 2, 3 * t, 3 * t + 1, 3 * t + 2)
  }

  /** The key set that Tx control selects; meaningful for a stream that selects one. */
  function Selected(st: Stream): KeySet { if st.Selects(KS0) then KS0 else KS1 }

  predicate HasSelection(st: Stream) { st.Selects(KS0) || st.Selects(KS1) }

  /** The slot of a sub-stream in the Tx indices of the selected key set. */
  function TxSlot(st: Stream, sub: SubStream): nat { SlotIndex(st.Indices(RX, Selected(st)), sub) }

  /** What the source asserts of every enabled stream it scans. */
  predicate Scannable(rp: RootPort) {
    && |rp.tx| % SUB_STREAMS == 0
    && forall i | 0 <= i < |rp.streams| && rp.streams[i].Enabled() ::
        && HasSelection(rp.streams[i])
        && TxSlot(rp.streams[i], PR) % SUB_STREAMS == 0
        && TxSlot(rp.streams[i], PR) < |rp.tx| && TxSlot(rp.streams[i], NPR) < |rp.tx| &&
          TxSlot(rp.streams[i], CPL) < |rp.tx|
  }

  predicate UsedBy(st: Stream, t: nat) { st.Enabled() && TxSlot(st, PR) == SUB_STREAMS * t }

  /** Triple `t` is taken by one of the first `n` streams. */
  predicate UsedAmong(rp: RootPort, n: nat, t: nat)
    requires n <= |rp.streams|
  {
    exists i :: 0 <= i < n && UsedBy(rp.streams[i], t)
  }

  lemma OneMoreStream(rp: RootPort, n: nat, t: nat)
    requires n < |rp.streams|
    ensures UsedAmong(rp, n + 1, t) <==> UsedAmong(rp, n, t) || UsedBy(rp.streams[n], t)
  {
  }

  predicate Used(rp: RootPort, t: nat) { UsedAmong(rp, |rp.streams|, t) }

  predicate FreeTriple(rp: RootPort, t: nat) { t < |rp.tx| / SUB_STREAMS && !Used(rp, t) }

  /** The triple the allocator returns: the map has room for all, and `t` is the lowest free one. */
  predicate HandsOut(rp: RootPort, t: nat) {
    |rp.tx| <= MAP_BITS * SUB_STREAMS && FreeTriple(rp, t) && forall u: nat | u < t :: Used(rp, u)
  }

  // ------------------------------------------------------------ the two banks

  /** The allocator looks at the number of Tx slots, and its triple is used in the Rx bank as well. */
  predicate InBoth(rp: RootPort, t: nat) {
    forall sub: SubStream :: SUB_STREAMS * t + sub.Index() < |rp.tx| && SUB_STREAMS * t + sub.Index() < |rp.rx|
  }

  predicate HasCounts(rp: RootPort, streams: nat, tx: nat, rx: nat) {
    |rp.streams| == streams && |rp.tx| == tx && |rp.rx| == rx
  }

  /** A stream that is enabled on triple `t`. */
  function StreamOn(t: nat): (st: Stream)
    requires t < MAP_BITS
    ensures st.Enabled() && HasSelection(st) && forall sub :: TxSlot(st, sub) == SUB_STREAMS * t + sub.Index()
  {
    var w := 3 * t + 0x400 * (3 * t + 1) + 0x10_0000 * (3 * t + 2);
    Packed(w, 3 * t, 3 * t + 1, 3 * t + 2, 0);
    Stream(1, 1, 0, 0, 0, w, 0, w, 0)
  }

  const OFF: Stream := Stream(0, 0, 0, 0, 0, 0, 0, 0, 0)
  const NO_SLOT: Slot := Slot([0, 0, 0, 0, 0, 0, 0, 0], [0, 0])

  /** A root port whose first `t` streams use the first `t` triples. */
  function Crowded(streams: nat, tx: nat, rx: nat, t: nat): (rp: RootPort)
    requires t <= MAP_BITS && t <= streams
    ensures HasCounts(rp, streams, tx, rx)
  {
    RootPort(seq(streams, i requires 0 <= i < streams => if i < t then StreamOn(i) else OFF),
             seq(tx, _ => NO_SLOT), seq(rx, _ => NO_SLOT))
  }

  lemma CrowdedHandsOut(streams: nat, tx: nat, rx: nat, t: nat)
    requires t <= streams && tx % SUB_STREAMS == 0 && tx <= MAP_BITS * SUB_STREAMS && t < tx / SUB_STREAMS
    ensures Scannable(Crowded(streams, tx, rx, t)) && HandsOut(Crowded(streams, tx, rx, t), t)
  {
    var rp := Crowded(streams, tx, rx, t);
    forall u: nat | u < t ensures Used(rp, u) {
      assert UsedBy(rp.streams[u], u);
    }
  }

  /** The triples that the first `n` streams can be on. */
  function TriplesOf(rp: RootPort, n: nat): (r: set<nat>)
    requires n <= |rp.streams|
    ensures |r| <= n
    ensures forall u: nat | UsedAmong(rp, n, u) :: u in r
  {
    if n == 0 then {} else TriplesOf(rp, n - 1) + {TxSlot(rp.streams[n - 1], PR) / SUB_STREAMS}
  }

  function Below(t: nat): (r: set<nat>)
    ensures |r| == t && forall u: nat :: u in r <==> u < t
  {
    if t == 0 then {} else Below(t - 1) + {t - 1}
  }

  lemma {:induction false} SubsetSize(a: set<nat>, b: set<nat>)
    requires a <= b
    ensures |a| <= |b|
  {
    if x :| x in a {
      SubsetSize(a - {x}, b - {x});
    }
  }

  /** Only as many triples as there are streams can be in use. */
  lemma HandedOutBelow(rp: RootPort, t: nat)
    requires forall u: nat | u < t :: Used(rp, u)
    ensures t <= |rp.streams|
  {
    var taken := TriplesOf(rp, |rp.streams|);
    forall u | u in Below(t) ensures u in taken {
      assert Used(rp, u);
    }
    SubsetSize(Below(t), taken);
  }

  /** Every triple that can be handed out on a port with these counts has its slots in both banks if and only if
      there are as many triples of Rx as of Tx slots, or more than the streams can ever use, or too many
      slots for the allocator to work at all. */
  lemma TriplesInBothExactly(streams: nat, tx: nat, rx: nat)
    requires tx % SUB_STREAMS == 0
    ensures (forall rp: RootPort, t: nat | HasCounts(rp, streams, tx, rx) && Scannable(rp) && HandsOut(rp, t) ::
      InBoth(rp, t)) <==>
      tx <= rx || streams < rx / SUB_STREAMS || MAP_BITS * SUB_STREAMS < tx
  {
    if tx <= rx || streams < rx / SUB_STREAMS || MAP_BITS * SUB_STREAMS < tx {
      forall rp: RootPort, t: nat | HasCounts(rp, streams, tx, rx) && Scannable(rp) && HandsOut(rp, t)
        ensures InBoth(rp, t)
      {
        HandedOutBelow(rp, t);
      }
    } else {
      var t := rx / SUB_STREAMS;
      CrowdedHandsOut(streams, tx, rx, t);
      assert !(SUB_STREAMS * t + CPL.Index() < rx);
      assert !InBoth(Crowded(streams, tx, rx, t), t);
    }
  }

  /** A mapping with one stream, on triple 0, with six Tx and three Rx slots. */
  function NarrowPort(): (mem: seq<u32>)
    ensures |mem| == 256
  {
    seq(256, k => if k == 0 then 5 * 0x400 + 2 * 0x10_0000 else if k == 1 + CONTROL || k == 1 + TX_CTRL then 1
                  else if k == 1 + TX_KEY_SET_0 then 1 * 0x400 + 2 * 0x10_0000 else 0)
  }

  /** There the allocator hands out triple 1, and the library stores its first Rx key over an Rx IV. */
  lemma NarrowPortOverrun()
    ensures var mem := NarrowPort();
      && Mapped(mem) && DecodeCaps(mem[0]) == Caps(1, 6, 3) && Scannable(View(mem)) && HandsOut(View(mem), 1)
      && forall key: Key | key[0] != 0 :: IvAfterKey(mem, Triple(1).Id(TX, PR), key, 0) != Piece(mem, RxIv(0))
  {
    var mem := NarrowPort();
    assert DecodeCaps(mem[0]) == Caps(1, 6, 3);
    var st := View(mem).streams[0];
    assert st == StreamOf(mem, 0) && st.txCtrl == 1 && st.control == 1;
    Packed(st.tx0, 0, 1, 2, 0);
    assert UsedBy(st, 0);
    forall key: Key | key[0] != 0 ensures IvAfterKey(mem, 3, key, 0) != Piece(mem, RxIv(0)) {
      assert IvAfterKey(mem, 3, key, 0)[0] == key[0] && Piece(mem, RxIv(0))[0] == 0;
    }
  }

  // ------------------------------------------------------------ the usage map

  function Bit(i: nat): bv8
    requires i < MAP_BITS
  {
    1 << i
  }

  predicate Test(m: bv8, i: nat)
    requires i < MAP_BITS
  {
    (m >> i) & 1 != 0
  }

  lemma BitTested(m: bv8, i: nat, j: nat)
    requires i < MAP_BITS && j < MAP_BITS
    ensures Test(Bit(i) | m, j) <==> j == i || Test(m, j)
  {
  }

  lemma NothingUsed(j: nat)
    requires j < MAP_BITS
    ensures !Test(0, j)
  {
  }

  /** One turn of the scan: adds the triple of an enabled stream to the map. */
  method ScanStream(kcbar: RegisterBlock, i: nat, usage: bv8) returns (r: bv8)
    requires kcbar.Valid() && Scannable(kcbar.Abs()) && i < kcbar.Caps().streams
    requires kcbar.Caps().txSlots <= MAP_BITS * SUB_STREAMS
    ensures forall j: nat | j < MAP_BITS :: Test(r, j) <==> Test(usage, j) || UsedBy(kcbar.Abs().streams[i], j)
    // an enabled stream uses the triple that the Tx index register of its selected key set names
    ensures var st := kcbar.Abs().streams[i];
      var index := if st.txCtrl % 4 == 1 then st.tx0 else st.tx1;
      forall j: nat | j < MAP_BITS ::
        Test(r, j) <==> (Test(usage, j) || (st.control % 2 == 1 && index % 0x400 == 3 * j))
  {
    var control := kcbar.ReadStreamReg(i, CONTROL);
    if control % 2 == 0 {
      return usage;
    }
    var txCtrl := kcbar.ReadStreamReg(i, TX_CTRL);
    var keyset := kcbar.ReadStreamReg(i, if txCtrl % 4 == 1 then TX_KEY_SET_0 else TX_KEY_SET_1);
    var t := SlotIndex(keyset, PR) / SUB_STREAMS;
    forall j: nat | j < MAP_BITS
      ensures Test(Bit(t) | usage, j) <==> Test(usage, j) || UsedBy(kcbar.Abs().streams[i], j)
    {
      BitTested(usage, t, j);
    }
    r := Bit(t) | usage;
  }

  /** The whole scan: bit j of the map says that some enabled stream uses triple j. */
  method CollectUsage(kcbar: RegisterBlock) returns (usage: bv8)
    requires kcbar.Valid() && Scannable(kcbar.Abs()) && kcbar.Caps().txSlots <= MAP_BITS * SUB_STREAMS
    ensures forall j: nat | j < MAP_BITS :: Test(usage, j) <==> Used(kcbar.Abs(), j)
  {
    ghost var rp := kcbar.Abs();
    var caps := DecodeCaps(kcbar.regs[0]);
    usage := 0;
    forall j: nat | j < MAP_BITS ensures !Test(usage, j) { NothingUsed(j); }
    for i := 0 to caps.streams
      invariant forall j: nat | j < MAP_BITS :: Test(usage, j) <==> UsedAmong(rp, i, j)
    {
      usage := ScanStream(kcbar, i, usage);
      forall j: nat ensures UsedAmong(rp, i + 1, j) <==> UsedAmong(rp, i, j) || UsedBy(rp.streams[i], j) {
        OneMoreStream(rp, i, j);
      }
    }
  }

  /** Succeeds if and only if the map is wide enough and some triple is free, and then
      hands out the lowest free one for both directions; otherwise leaves `kSet` as it was. */
  method PcieIdeAllocSlotIds(kcbar: RegisterBlock, kSet: SlotIds) returns (found: bool, r: SlotIds)
    requires kcbar.Valid() && Scannable(kcbar.Abs())
    ensures found <==> |kcbar.Abs().tx| <= 24 && exists t :: FreeTriple(kcbar.Abs(), t)
    ensures found ==> exists t: nat | t < MAP_BITS :: HandsOut(kcbar.Abs(), t) && r == Triple(t)
    ensures !found ==> r == kSet
  {
    ghost var rp := kcbar.Abs();
    var keyIvSlots := DecodeCaps(kcbar.regs[0]).txSlots;
    if keyIvSlots > MAP_BITS * SUB_STREAMS {
      return false, kSet;
    }
    var usage := CollectUsage(kcbar);
    for i := 0 to keyIvSlots / SUB_STREAMS
      invariant forall u: nat | u < i :: Used(rp, u)
    {
      if !Test(usage, i) {
        assert FreeTriple(rp, i);
        return true, Triple(i);
      }
    }
    return false, kSet;
  }
}
