/** The Key Configuration Unit register block (KCBAR) of an Intel root port: its
    layout, which depends on the capability register, and the register accesses
    of the library.  All accesses are whole dwords, so the mapping is an array of
    dwords; byte offset `4 * k` of the mapping is index `k`. */
module Kcbar {
  import opened Words

  datatype SubStream = PR | NPR | CPL {
    function Index(): nat { match this case PR => 0 case NPR => 1 case CPL => 2 }
  }

  datatype KeySet = KS0 | KS1 {
    function Other(): KeySet { if this == KS0 then KS1 else KS0 }
    /** The encoding of the key set in the key_set_select field. */
    function Select(): nat { if this == KS0 then 1 else 2 }
  }

  const STREAM_DWORDS: nat := 9
  const KEY_DWORDS: nat := 8
  const IV_DWORDS: nat := 2

  /** What the capability register says: the fields hold the counts minus one. */
  datatype Caps = Caps(streams: nat, txSlots: nat, rxSlots: nat)

  function DecodeCaps(w: u32): Caps {
    Caps(w % 0x100 + 1, w / 0x400 % 0x400 + 1, w / 0x10_0000 % 0x400 + 1)
  }

  // ------------------------------------------------------------ layout

  function StreamAt(i: nat): nat { 1 + STREAM_DWORDS * i }
  function TxKeyAt(c: Caps, n: nat): nat { StreamAt(c.streams) + KEY_DWORDS * n }
  function TxIvAt(c: Caps, n: nat): nat { TxKeyAt(c, c.txSlots) + IV_DWORDS * n }
  function RxKeyAt(c: Caps, n: nat): nat { TxIvAt(c, c.txSlots) + KEY_DWORDS * n }
  function RxIvAt(c: Caps, n: nat): nat { RxKeyAt(c, c.rxSlots) + IV_DWORDS * n }
  function End(c: Caps): nat { RxIvAt(c, c.rxSlots) }

  /** A named piece of the register block. */
  datatype Location =
    | CapabilityReg
    | StreamReg(stream: nat, field: nat)
    | TxKey(slot: nat) | TxIv(slot: nat)
    | RxKey(slot: nat) | RxIv(slot: nat)

  predicate Exists(c: Caps, l: Location) {
    match l
    case CapabilityReg => true
    case StreamReg(i, f) => i < c.streams && f < STREAM_DWORDS
    case TxKey(n) => n < c.txSlots
    case TxIv(n) => n < c.txSlots
    case RxKey(n) => n < c.rxSlots
    case RxIv(n) => n < c.rxSlots
  }

  function At(c: Caps, l: Location): nat {
    match l
    case CapabilityReg => 0
    case StreamReg(i, f) => StreamAt(i) + f
    case TxKey(n) => TxKeyAt(c, n)
    case TxIv(n) => TxIvAt(c, n)
    case RxKey(n) => RxKeyAt(c, n)
    case RxIv(n) => RxIvAt(c, n)
  }

  function Size(l: Location): nat {
    match l
    case CapabilityReg | StreamReg(_, _) => 1
    case TxKey(_) | RxKey(_) => KEY_DWORDS
    case TxIv(_) | RxIv(_) => IV_DWORDS
  }

  /** Every piece that exists lies inside the block, and two different pieces
      never share a dword, for every number of streams and slots. */
  lemma LayoutDisjoint(c: Caps, a: Location, b: Location)
    requires Exists(c, a) && Exists(c, b)
    ensures At(c, a) + Size(a) <= End(c)
    ensures a != b ==> At(c, a) + Size(a) <= At(c, b) || At(c, b) + Size(b) <= At(c, a)
  {
  }

  /** The pieces also cover the block: every dword belongs to one of them. */
  lemma {:induction false} LayoutCovers(c: Caps, k: nat) returns (l: Location)
    requires k < End(c)
    ensures Exists(c, l) && At(c, l) <= k < At(c, l) + Size(l)
  {
    if k == 0 {
      l := CapabilityReg;
    } else if k < TxKeyAt(c, 0) {
      l := StreamReg((k - 1) / STREAM_DWORDS, (k - 1) % STREAM_DWORDS);
    } else if k < TxIvAt(c, 0) {
      l := TxKey((k - TxKeyAt(c, 0)) / KEY_DWORDS);
    } else if k < RxKeyAt(c, 0) {
      l := TxIv((k - TxIvAt(c, 0)) / IV_DWORDS);
    } else if k < RxIvAt(c, 0) {
      l := RxKey((k - RxKeyAt(c, 0)) / KEY_DWORDS);
    } else {
      l := RxIv((k - RxIvAt(c, 0)) / IV_DWORDS);
    }
  }

  /** The 1024 bytes the library maps hold the whole block exactly up to this
      many streams and slots. */
  lemma FitsMapping(c: Caps)
    ensures 4 * End(c) <= 1024 <==> 9 * c.streams + 10 * (c.txSlots + c.rxSlots) <= 255
  {
  }

  // ------------------------------------------------------------ abstract view

  type Key = s: seq<u32> | |s| == KEY_DWORDS witness [0, 0, 0, 0, 0, 0, 0, 0]
  type Iv = s: seq<u32> | |s| == IV_DWORDS witness [0, 0]

  datatype Slot = Slot(key: Key, iv: Iv)

  /** The nine registers of one Per-Stream Configuration block. */
  datatype Stream = Stream(control: u32, txCtrl: u32, txStatus: u32, rxCtrl: u32, rxStatus: u32,
                           tx0: u32, tx1: u32, rx0: u32, rx1: u32)
  {
    /** The register with field number `f` (its dword offset in the block). */
    function Get(f: nat): u32 {
      match f
      case 0 => control case 1 => txCtrl case 2 => txStatus case 3 => rxCtrl case 4 => rxStatus
      case 5 => tx0 case 6 => tx1 case 7 => rx0 case _ => rx1
    }

    function With(f: nat, v: u32): Stream {
      match f
      case 0 => this.(control := v) case 1 => this.(txCtrl := v) case 2 => this.(txStatus := v)
      case 3 => this.(rxCtrl := v) case 4 => this.(rxStatus := v)
      case 5 => this.(tx0 := v) case 6 => this.(tx1 := v) case 7 => this.(rx0 := v) case _ => this.(rx1 := v)
    }

    predicate Enabled() { control % 2 == 1 }

    /** key_set_select of the Tx control register, when it names a key set. */
    predicate Selects(ks: KeySet) { txCtrl % 4 == ks.Select() }

    /** The slot-index register of a key set. */
    function Indices(dir: Direction, ks: KeySet): u32 { Get(IndexField(dir, ks)) }

    function WithIndices(dir: Direction, ks: KeySet, w: u32): Stream { With(IndexField(dir, ks), w) }
  }

  /** Where a stream block keeps the slot indices of a key set, on the root port's own
      side: device RX is served by the root port's Tx registers and vice versa. */
  function IndexField(dir: Direction, ks: KeySet): (f: nat)
    ensures f < STREAM_DWORDS
  {
    match (dir, ks)
    case (RX, KS0) => TX_KEY_SET_0
    case (RX, KS1) => TX_KEY_SET_1
    case (TX, KS0) => RX_KEY_SET_0
    case (TX, KS1) => RX_KEY_SET_1
  }

  /** The root port's registers: `tx` and `rx` are the banks of key/IV slots. */
  datatype RootPort = RootPort(streams: seq<Stream>, tx: seq<Slot>, rx: seq<Slot>) {
    /** The bank that serves a direction named from the device's side. */
    function Bank(dir: Direction): seq<Slot> { if dir == RX then tx else rx }

    function WithSlot(dir: Direction, n: nat, s: Slot): RootPort
      requires n < |Bank(dir)|
    {
      if dir == RX then this.(tx := tx[n := s]) else this.(rx := rx[n := s])
    }

    function WithStream(i: nat, s: Stream): RootPort
      requires i < |streams|
    {
      this.(streams := streams[i := s])
    }
  }

  predicate Mapped(mem: seq<u32>) { 0 < |mem| && End(DecodeCaps(mem[0])) <= |mem| }

  function StreamOf(mem: seq<u32>, i: nat): Stream
    requires Mapped(mem) && i < DecodeCaps(mem[0]).streams
  {
    var p := StreamAt(i);
    Stream(mem[p], mem[p + 1], mem[p + 2], mem[p + 3], mem[p + 4], mem[p + 5], mem[p + 6], mem[p + 7], mem[p + 8])
  }

  /** The dwords of one piece. */
  function Piece(mem: seq<u32>, l: Location): (r: seq<u32>)
    requires Mapped(mem) && Exists(DecodeCaps(mem[0]), l)
    ensures |r| == Size(l)
  {
    LayoutDisjoint(DecodeCaps(mem[0]), l, l);
    var p := At(DecodeCaps(mem[0]), l);
    mem[p..p + Size(l)]
  }

  function KeyPiece(dir: Direction, n: nat): Location { if dir == RX then TxKey(n) else RxKey(n) }
  function IvPiece(dir: Direction, n: nat): Location { if dir == RX then TxIv(n) else RxIv(n) }
  function Slots(c: Caps, dir: Direction): nat { if dir == RX then c.txSlots else c.rxSlots }

  /** The root port's slots that serve the device's direction `dir`. */
  function BankOf(mem: seq<u32>, dir: Direction): (r: seq<Slot>)
    requires Mapped(mem)
    ensures |r| == Slots(DecodeCaps(mem[0]), dir)
  {
    var c := DecodeCaps(mem[0]);
    seq(Slots(c, dir), n requires 0 <= n < Slots(c, dir) =>
      Slot(Piece(mem, KeyPiece(dir, n)), Piece(mem, IvPiece(dir, n))))
  }

  function View(mem: seq<u32>): (rp: RootPort)
    requires Mapped(mem)
    ensures |rp.streams| == DecodeCaps(mem[0]).streams
    ensures |rp.tx| == DecodeCaps(mem[0]).txSlots && |rp.rx| == DecodeCaps(mem[0]).rxSlots
  {
    var c := DecodeCaps(mem[0]);
    RootPort(seq(c.streams, i requires 0 <= i < c.streams => StreamOf(mem, i)), BankOf(mem, RX), BankOf(mem, TX))
  }

  /** Where the registers of a stream are, in dwords from the start of the mapping. */
  lemma StreamRegisters(mem: seq<u32>, i: nat, at: nat)
    requires Mapped(mem) && i < |View(mem).streams| && at == 1 + 9 * i
    ensures at + 9 <= |mem|
    ensures var st := View(mem).streams[i];
      && st.control == mem[at] && st.txCtrl == mem[at + 1] && st.rxCtrl == mem[at + 3]
      && st.tx0 == mem[at + 5] && st.tx1 == mem[at + 6] && st.rx0 == mem[at + 7] && st.rx1 == mem[at + 8]
  {
    LayoutDisjoint(DecodeCaps(mem[0]), StreamReg(i, 8), StreamReg(i, 8));
  }

  /** Where slot `n` of the Tx bank has its key and its IV ... */
  lemma TxSlotPlace(mem: seq<u32>, n: nat, k: nat, v: nat)
    requires Mapped(mem) && n < |View(mem).tx| && k == 1 + 9 * |View(mem).streams| + 8 * n
    requires v == 1 + 9 * |View(mem).streams| + 8 * |View(mem).tx| + 2 * n
    ensures k + 8 <= |mem| && v + 2 <= |mem| && View(mem).tx[n] == Slot(mem[k..k + 8], mem[v..v + 2])
  {
    var c := DecodeCaps(mem[0]);
    PieceIs(mem, c, TxKey(n), k, KEY_DWORDS);
    PieceIs(mem, c, TxIv(n), v, IV_DWORDS);
    assert BankOf(mem, RX)[n] == Slot(Piece(mem, TxKey(n)), Piece(mem, TxIv(n)));
  }

  /** ... and slot `n` of the Rx bank, which comes behind all of the Tx bank. */
  lemma RxSlotPlace(mem: seq<u32>, n: nat, k: nat, v: nat)
    requires Mapped(mem) && n < |View(mem).rx| && k == 1 + 9 * |View(mem).streams| + 10 * |View(mem).tx| + 8 * n
    requires v == 1 + 9 * |View(mem).streams| + 10 * |View(mem).tx| + 8 * |View(mem).rx| + 2 * n
    ensures k + 8 <= |mem| && v + 2 <= |mem| && View(mem).rx[n] == Slot(mem[k..k + 8], mem[v..v + 2])
  {
    var c := DecodeCaps(mem[0]);
    PieceIs(mem, c, RxKey(n), k, KEY_DWORDS);
    PieceIs(mem, c, RxIv(n), v, IV_DWORDS);
    assert BankOf(mem, TX)[n] == Slot(Piece(mem, RxKey(n)), Piece(mem, RxIv(n)));
  }

  // ------------------------------------------------------------ bit fields

  function SlotIndex(w: u32, sub: SubStream): nat {
    match sub
    case PR => w % 0x400
    case NPR => w / 0x400 % 0x400
    case CPL => w / 0x10_0000 % 0x400
  }

  /** `w` with the field of `sub` replaced. */
  function WithSlotIndex(w: u32, sub: SubStream, n: nat): u32
    requires n < 0x400
  {
    match sub
    case PR => w - w % 0x400 + n
    case NPR => w - (w / 0x400 % 0x400) * 0x400 + n * 0x400
    case CPL => w - (w / 0x10_0000 % 0x400) * 0x10_0000 + n * 0x10_0000
  }

  /** A word is determined by its three fields and the two reserved bits. */
  lemma Packed(w: u32, pr: nat, npr: nat, cpl: nat, rsvd: nat)
    requires pr < 0x400 && npr < 0x400 && cpl < 0x400 && rsvd < 4
    requires w == pr + 0x400 * npr + 0x10_0000 * cpl + 0x4000_0000 * rsvd
    ensures SlotIndex(w, PR) == pr && SlotIndex(w, NPR) == npr && SlotIndex(w, CPL) == cpl
    ensures w / 0x4000_0000 == rsvd
  {
    assert w / 0x400 == npr + 0x400 * cpl + 0x10_0000 * rsvd;
    assert w / 0x10_0000 == cpl + 0x400 * rsvd;
  }

  lemma Unpacked(w: u32)
    ensures w / 0x4000_0000 < 4
    ensures w == w % 0x400 + 0x400 * (w / 0x400 % 0x400) + 0x10_0000 * (w / 0x10_0000 % 0x400)
      + 0x4000_0000 * (w / 0x4000_0000)
  {
  }

  /** Replacing one field leaves the two others and the reserved bits alone. */
  lemma SlotIndexFields(w: u32, sub: SubStream, n: nat)
    requires n < 0x400
    ensures forall other ::
      SlotIndex(WithSlotIndex(w, sub, n), other) == if other == sub then n else SlotIndex(w, other)
    ensures WithSlotIndex(w, sub, n) / 0x4000_0000 == w / 0x4000_0000
  {
    var pr, npr, cpl, rsvd := w % 0x400, w / 0x400 % 0x400, w / 0x10_0000 % 0x400, w / 0x4000_0000;
    Unpacked(w);
    Packed(w, pr, npr, cpl, rsvd);
    match sub
    case PR => Packed(WithSlotIndex(w, sub, n), n, npr, cpl, rsvd);
    case NPR => Packed(WithSlotIndex(w, sub, n), pr, n, cpl, rsvd);
    case CPL => Packed(WithSlotIndex(w, sub, n), pr, npr, n, rsvd);
  }

  /** `w'` is `w` with `n` in the field of `sub`: the other fields and the reserved bits are the same. */
  predicate FieldIs(w: u32, w': u32, sub: SubStream, n: nat) {
    && w' / 0x4000_0000 == w / 0x4000_0000
    && forall other :: SlotIndex(w', other) == if other == sub then n else SlotIndex(w, other)
  }

  /** A control register with the prime bit of `ks` set and the other cleared (bits 8 and 16). */
  function WithPrime(w: u32, ks: KeySet): u32 {
    var cleared := w - (w / 0x100 % 2) * 0x100 - (w / 0x1_0000 % 2) * 0x1_0000;
    cleared + if ks == KS0 then 0x100 else 0x1_0000
  }

  predicate Primed(w: u32, ks: KeySet) {
    if ks == KS0 then w / 0x100 % 2 == 1 && w / 0x1_0000 % 2 == 0
    else w / 0x100 % 2 == 0 && w / 0x1_0000 % 2 == 1
  }

  lemma SplitByte(w: nat, low: nat, high: nat)
    requires w == low + 0x100 * high && low < 0x100
    ensures w / 0x100 == high && w % 0x100 == low
  {
  }

  lemma SplitHalf(w: nat, low: nat, high: nat)
    requires w == low + 0x1_0000 * high && low < 0x1_0000
    ensures w / 0x1_0000 == high
  {
  }

  lemma SplitBit(w: nat, low: nat, high: nat)
    requires w == low + 2 * high && low < 2
    ensures w % 2 == low
  {
  }

  /** A Tx/Rx control register taken apart: select and reserved bits, the two prime bits, the rest. */
  lemma ControlPacked(w: nat, a: nat, b: nat, c: nat, d: nat, e: nat)
    requires a < 0x100 && b < 2 && c < 0x80 && d < 2
    requires w == a + 0x100 * b + 0x200 * c + 0x1_0000 * d + 0x2_0000 * e
    ensures w % 0x100 == a && w / 0x100 % 2 == b && w / 0x1_0000 % 2 == d
  {
    var q := b + 2 * c + 0x100 * d + 0x200 * e;
    SplitByte(w, a, q);
    SplitBit(q, b, c + 0x80 * d + 0x100 * e);
    SplitHalf(w, a + 0x100 * b + 0x200 * c, d + 2 * e);
    SplitBit(d + 2 * e, d, e);
  }

  /** Taking a register apart and putting it together again. */
  lemma ControlParts(w: nat) returns (a: nat, b: nat, c: nat, d: nat, e: nat)
    ensures a < 0x100 && b < 2 && c < 0x80 && d < 2
    ensures a == w % 0x100 && b == w / 0x100 % 2 && d == w / 0x1_0000 % 2
    ensures w == a + 0x100 * b + 0x200 * c + 0x1_0000 * d + 0x2_0000 * e
  {
    var low, high := w % 0x1_0000, w / 0x1_0000;
    a, d, e := low % 0x100, high % 2, high / 2;
    var mid := low / 0x100;
    b, c := mid % 2, mid / 2;
    ControlPacked(w, a, b, c, d, e);
  }

  /** Priming sets exactly the prime bits; in particular the key set select stays. */
  lemma PrimeFields(w: u32, ks: KeySet)
    ensures Primed(WithPrime(w, ks), ks)
    ensures WithPrime(w, ks) % 0x100 == w % 0x100
    ensures WithPrime(w, ks) % 4 == w % 4
  {
    var a, b, c, d, e := ControlParts(w);
    if ks == KS0 {
      ControlPacked(WithPrime(w, ks), a, 1, c, 0, e);
    } else {
      ControlPacked(WithPrime(w, ks), a, 0, c, 1, e);
    }
  }

  /** A Tx control register with key_set_select replaced. */
  function WithSelect(w: u32, ks: KeySet): u32 { w - w % 4 + ks.Select() }

  lemma SelectFields(w: u32, ks: KeySet)
    ensures WithSelect(w, ks) % 4 == ks.Select()
    ensures forall k :: Primed(WithSelect(w, ks), k) <==> Primed(w, k)
  {
    var a, b, c, d, e := ControlParts(w);
    LowBits(a, w);
    var a' := a - a % 4 + ks.Select();
    ControlPacked(WithSelect(w, ks), a', b, c, d, e);
    LowBits(a', WithSelect(w, ks));
  }

  lemma LowBits(a: nat, w: nat)
    requires a == w % 0x100
    ensures a % 4 == w % 4
  {
    SplitSelect(w, a % 4, 0x40 * (w / 0x100) + a / 4);
  }

  lemma SplitSelect(w: nat, low: nat, high: nat)
    requires w == low + 4 * high && low < 4
    ensures w % 4 == low
  {
  }

  /** A stream control register with the enable bit replaced. */
  function WithEnable(w: u32, enable: bool): u32 { w - w % 2 + if enable then 1 else 0 }

  // ------------------------------------------------------------ what one register access does

  /** One key: the slot of the opposite bank, then the index field that names it. */
  function ProgramKey(rp: RootPort, i: nat, dir: Direction, ks: KeySet, sub: SubStream, n: nat, s: Slot): RootPort
    requires i < |rp.streams| && n < |rp.Bank(dir)| && n < 0x400
  {
    var st := rp.streams[i];
    rp.WithSlot(dir, n, s).WithStream(i, st.WithIndices(dir, ks, WithSlotIndex(st.Indices(dir, ks), sub, n)))
  }

  /** Of the four index registers one changes, and of that one field: the root port finds the device's Rx keys
      through its own Tx registers and the other way round. */
  predicate IndexSet(st: Stream, st': Stream, dir: Direction, ks: KeySet, sub: SubStream, n: nat) {
    && (dir == RX && ks == KS0 ==> st' == st.(tx0 := st'.tx0) && FieldIs(st.tx0, st'.tx0, sub, n))
    && (dir == RX && ks == KS1 ==> st' == st.(tx1 := st'.tx1) && FieldIs(st.tx1, st'.tx1, sub, n))
    && (dir == TX && ks == KS0 ==> st' == st.(rx0 := st'.rx0) && FieldIs(st.rx0, st'.rx0, sub, n))
    && (dir == TX && ks == KS1 ==> st' == st.(rx1 := st'.rx1) && FieldIs(st.rx1, st'.rx1, sub, n))
  }

  lemma ProgramSetsIndex(st: Stream, dir: Direction, ks: KeySet, sub: SubStream, n: nat)
    requires n < 0x400
    ensures IndexSet(st, st.WithIndices(dir, ks, WithSlotIndex(st.Indices(dir, ks), sub, n)), dir, ks, sub, n)
  {
    SlotIndexFields(st.Indices(dir, ks), sub, n);
  }

  function Prime(rp: RootPort, i: nat, dir: Direction, ks: KeySet): RootPort
    requires i < |rp.streams|
  {
    var st := rp.streams[i];
    rp.WithStream(i,
      if dir == RX then st.(txCtrl := WithPrime(st.txCtrl, ks)) else st.(rxCtrl := WithPrime(st.rxCtrl, ks)))
  }

  function SelectKeySet(rp: RootPort, i: nat, ks: KeySet): RootPort
    requires i < |rp.streams|
  {
    rp.WithStream(i, rp.streams[i].(txCtrl := WithSelect(rp.streams[i].txCtrl, ks)))
  }

  function SetEnable(rp: RootPort, i: nat, enable: bool): RootPort
    requires i < |rp.streams|
  {
    rp.WithStream(i, rp.streams[i].(control := WithEnable(rp.streams[i].control, enable)))
  }

  function InitStream(rp: RootPort, i: nat, streamId: u8): RootPort
    requires i < |rp.streams|
  {
    rp.WithStream(i, rp.streams[i].(control := streamId * 0x100_0000, txCtrl := 0, rxCtrl := 0,
                                    tx0 := 0, tx1 := 0, rx0 := 0, rx1 := 0))
  }

  // ------------------------------------------------------------ refinement of one write

  lemma OverwriteSlice(mem: seq<u32>, at: nat, src: seq<u32>, p: nat, n: nat)
    requires at + |src| <= |mem| && p + n <= |mem|
    requires (p == at && n == |src|) || p + n <= at || at + |src| <= p
    ensures Overwrite(mem, at, src)[p..p + n] == if p == at && n == |src| then src else mem[p..p + n]
  {
  }

  lemma OverwriteKeepsMapped(mem: seq<u32>, l: Location, src: seq<u32>)
    requires Mapped(mem) && Exists(DecodeCaps(mem[0]), l) && |src| == Size(l) && l != CapabilityReg
    ensures At(DecodeCaps(mem[0]), l) + |src| <= |mem|
    ensures var mem' := Overwrite(mem, At(DecodeCaps(mem[0]), l), src); mem'[0] == mem[0] && Mapped(mem')
  {
    LayoutDisjoint(DecodeCaps(mem[0]), l, CapabilityReg);
  }

  lemma PieceIs(mem: seq<u32>, c: Caps, l: Location, p: nat, n: nat)
    requires Mapped(mem) && c == DecodeCaps(mem[0]) && Exists(c, l) && p == At(c, l) && n == Size(l)
    ensures p + n <= |mem| && Piece(mem, l) == mem[p..p + n]
  {
    LayoutDisjoint(c, l, l);
  }

  lemma OverwriteOther(mem: seq<u32>, l: Location, src: seq<u32>, m: Location)
    requires Mapped(mem) && Exists(DecodeCaps(mem[0]), l) && |src| == Size(l) && l != CapabilityReg
    requires Exists(DecodeCaps(mem[0]), m) && At(DecodeCaps(mem[0]), l) + |src| <= |mem|
    requires var mem' := Overwrite(mem, At(DecodeCaps(mem[0]), l), src); mem'[0] == mem[0] && Mapped(mem')
    ensures Piece(Overwrite(mem, At(DecodeCaps(mem[0]), l), src), m) == if m == l then src else Piece(mem, m)
  {
    var c := DecodeCaps(mem[0]);
    var at, p, n := At(c, l), At(c, m), Size(m);
    PieceIs(mem, c, m, p, n);
    PieceIs(Overwrite(mem, at, src), c, m, p, n);
    SameOrApart(c, l, m, at, |src|, p, n);
    OverwriteSlice(mem, at, src, p, n);
  }

  lemma SameOrApart(c: Caps, l: Location, m: Location, at: nat, size: nat, p: nat, n: nat)
    requires Exists(c, l) && Exists(c, m) && at == At(c, l) && size == Size(l) && p == At(c, m) && n == Size(m)
    ensures (p == at && n == size) || p + n <= at || at + size <= p
    ensures m == l <==> p == at && n == size
  {
    if m != l {
      LayoutApart(c, l, m, at, size, p, n);
    }
  }

  lemma LayoutApart(c: Caps, l: Location, m: Location, at: nat, size: nat, p: nat, n: nat)
    requires Exists(c, l) && Exists(c, m) && l != m && at == At(c, l) && size == Size(l)
    requires p == At(c, m) && n == Size(m)
    ensures (p + n <= at || at + size <= p) && size > 0 && n > 0
  {
    LayoutDisjoint(c, l, m);
  }

  /** Overwriting one piece (but for the capabilities) leaves every other piece alone. */
  lemma OverwritePiece(mem: seq<u32>, l: Location, src: seq<u32>)
    requires Mapped(mem) && Exists(DecodeCaps(mem[0]), l) && |src| == Size(l) && l != CapabilityReg
    ensures At(DecodeCaps(mem[0]), l) + |src| <= |mem|
    ensures var c := DecodeCaps(mem[0]); var mem' := Overwrite(mem, At(c, l), src);
      mem'[0] == mem[0] && Mapped(mem') &&
      forall m | Exists(c, m) :: Piece(mem', m) == if m == l then src else Piece(mem, m)
  {
    var c := DecodeCaps(mem[0]);
    OverwriteKeepsMapped(mem, l, src);
    forall m | Exists(c, m)
      ensures Piece(Overwrite(mem, At(c, l), src), m) == if m == l then src else Piece(mem, m)
    {
      OverwriteOther(mem, l, src, m);
    }
  }

  /** The dword of one stream register. */
  ghost function RegisterOf(mem: seq<u32>, i: nat, f: nat): u32
    requires Mapped(mem) && i < DecodeCaps(mem[0]).streams && f < STREAM_DWORDS
  {
    Piece(mem, StreamReg(i, f))[0]
  }

  lemma StreamPieces(mem: seq<u32>, i: nat)
    requires Mapped(mem) && i < DecodeCaps(mem[0]).streams
    ensures StreamOf(mem, i) == Stream(RegisterOf(mem, i, 0), RegisterOf(mem, i, 1), RegisterOf(mem, i, 2),
                                       RegisterOf(mem, i, 3), RegisterOf(mem, i, 4), RegisterOf(mem, i, 5),
                                       RegisterOf(mem, i, 6), RegisterOf(mem, i, 7), RegisterOf(mem, i, 8))
  {
  }

  lemma OwnStreamStored(mem: seq<u32>, mem': seq<u32>, i: nat, f: nat, v: u32)
    requires Mapped(mem) && i < DecodeCaps(mem[0]).streams && f < STREAM_DWORDS
    requires Mapped(mem') && mem'[0] == mem[0] && mem' == mem[StreamAt(i) + f := v]
    ensures StreamOf(mem', i) == StreamOf(mem, i).With(f, v) && mem[StreamAt(i) + f] == StreamOf(mem, i).Get(f)
  {
  }

  lemma SameBank(mem: seq<u32>, mem': seq<u32>, dir: Direction)
    requires Mapped(mem) && Mapped(mem') && mem'[0] == mem[0]
    requires forall l | Exists(DecodeCaps(mem[0]), l) && !l.StreamReg? :: Piece(mem', l) == Piece(mem, l)
    ensures BankOf(mem', dir) == BankOf(mem, dir)
  {
    var c := DecodeCaps(mem[0]);
    forall n: nat | n < Slots(c, dir)
      ensures Piece(mem', KeyPiece(dir, n)) == Piece(mem, KeyPiece(dir, n))
      ensures Piece(mem', IvPiece(dir, n)) == Piece(mem, IvPiece(dir, n))
    {
    }
  }

  /** The place that the library computes for an Rx key whose slot number may be beyond the bank: storing
      eight dwords there leaves all Rx IV slots alone, whatever they are, if and only if the number
      is in the bank or so far beyond that even the IV slots end before. */
  lemma RxKeyOverrun(mem: seq<u32>, n: nat)
    requires Mapped(mem) && RxKeyAt(DecodeCaps(mem[0]), n) + KEY_DWORDS <= |mem|
    ensures var c := DecodeCaps(mem[0]);
      (forall key: Key, m: nat | m < c.rxSlots :: IvAfterKey(mem, n, key, m) == Piece(mem, RxIv(m))) <==>
        n < c.rxSlots || End(c) <= RxKeyAt(c, n)
  {
    var c := DecodeCaps(mem[0]);
    if n < c.rxSlots || End(c) <= RxKeyAt(c, n) {
      forall key: Key, m: nat | m < c.rxSlots ensures IvAfterKey(mem, n, key, m) == Piece(mem, RxIv(m)) {
        RxKeyClear(mem, n, key, m);
      }
    } else {
      var key, m := RxKeyHits(mem, n);
    }
  }

  lemma RxKeyClear(mem: seq<u32>, n: nat, key: Key, m: nat)
    requires Mapped(mem) && RxKeyAt(DecodeCaps(mem[0]), n) + KEY_DWORDS <= |mem| && m < DecodeCaps(mem[0]).rxSlots
    requires n < DecodeCaps(mem[0]).rxSlots || End(DecodeCaps(mem[0])) <= RxKeyAt(DecodeCaps(mem[0]), n)
    ensures IvAfterKey(mem, n, key, m) == Piece(mem, RxIv(m))
  {
    var c := DecodeCaps(mem[0]);
    OverwriteSlice(mem, RxKeyAt(c, n), key, RxIvAt(c, m), IV_DWORDS);
  }

  lemma RxKeyHits(mem: seq<u32>, n: nat) returns (key: Key, m: nat)
    requires Mapped(mem) && RxKeyAt(DecodeCaps(mem[0]), n) + KEY_DWORDS <= |mem|
    requires DecodeCaps(mem[0]).rxSlots <= n && RxKeyAt(DecodeCaps(mem[0]), n) < End(DecodeCaps(mem[0]))
    ensures m < DecodeCaps(mem[0]).rxSlots && IvAfterKey(mem, n, key, m) != Piece(mem, RxIv(m))
  {
    var c := DecodeCaps(mem[0]);
    m := 4 * (n - c.rxSlots);
    assert RxIvAt(c, m) == RxKeyAt(c, n);
    key := seq(KEY_DWORDS, _ => (mem[RxIvAt(c, m)] + 1) % TWO_32);
    assert IvAfterKey(mem, n, key, m)[0] == key[0] != Piece(mem, RxIv(m))[0];
  }

  /** An Rx IV slot after the store of an Rx key. */
  function IvAfterKey(mem: seq<u32>, n: nat, key: Key, m: nat): seq<u32>
    requires Mapped(mem) && RxKeyAt(DecodeCaps(mem[0]), n) + KEY_DWORDS <= |mem| && m < DecodeCaps(mem[0]).rxSlots
  {
    var c := DecodeCaps(mem[0]);
    Overwrite(mem, RxKeyAt(c, n), key)[RxIvAt(c, m)..RxIvAt(c, m) + IV_DWORDS]
  }

  /** Storing one dword of a stream block changes that register of that stream and nothing else. */
  lemma StoreStreamReg(mem: seq<u32>, i: nat, f: nat, v: u32)
    requires Mapped(mem) && i < DecodeCaps(mem[0]).streams && f < STREAM_DWORDS
    ensures StreamAt(i) + f < |mem| && mem[StreamAt(i) + f] == View(mem).streams[i].Get(f)
    ensures var mem' := mem[StreamAt(i) + f := v];
      mem'[0] == mem[0] && Mapped(mem') && View(mem') == View(mem).WithStream(i, View(mem).streams[i].With(f, v))
  {
    OverwritePiece(mem, StreamReg(i, f), [v]);
    var mem' := mem[StreamAt(i) + f := v];
    assert mem' == Overwrite(mem, At(DecodeCaps(mem[0]), StreamReg(i, f)), [v]);
    forall j: nat | j < DecodeCaps(mem[0]).streams && j != i ensures StreamOf(mem', j) == StreamOf(mem, j) {
      StreamPieces(mem, j);
      StreamPieces(mem', j);
    }
    OwnStreamStored(mem, mem', i, f, v);
    assert View(mem').streams == View(mem).streams[i := StreamOf(mem', i)];
    SameBank(mem, mem', RX);
    SameBank(mem, mem', TX);
  }

  /** The view is determined by the pieces: equal stream pieces mean equal streams. */
  lemma SameStreams(mem: seq<u32>, mem': seq<u32>)
    requires Mapped(mem) && Mapped(mem') && mem'[0] == mem[0]
    requires forall i, f | Exists(DecodeCaps(mem[0]), StreamReg(i, f)) ::
      Piece(mem', StreamReg(i, f)) == Piece(mem, StreamReg(i, f))
    ensures View(mem').streams == View(mem).streams
  {
    forall i: nat | i < DecodeCaps(mem[0]).streams ensures StreamOf(mem', i) == StreamOf(mem, i) {
      StreamPieces(mem, i);
      StreamPieces(mem', i);
    }
  }

  /** Two images that agree on every piece but one slot show views that differ in that slot. */
  lemma SlotsDiffer(mem: seq<u32>, mem': seq<u32>, dir: Direction, n: nat, s: Slot)
    requires Mapped(mem) && Mapped(mem') && mem'[0] == mem[0] && n < |BankOf(mem, dir)|
    requires Piece(mem', KeyPiece(dir, n)) == s.key && Piece(mem', IvPiece(dir, n)) == s.iv
    requires forall l | Exists(DecodeCaps(mem[0]), l) && l != KeyPiece(dir, n) && l != IvPiece(dir, n) ::
      Piece(mem', l) == Piece(mem, l)
    ensures View(mem') == View(mem).WithSlot(dir, n, s)
  {
    SameStreams(mem, mem');
    OneSlotDiffers(mem, mem', dir, n, s);
    OtherBankSame(mem, mem', dir, n, if dir == RX then TX else RX);
  }

  lemma OneSlotDiffers(mem: seq<u32>, mem': seq<u32>, dir: Direction, n: nat, s: Slot)
    requires Mapped(mem) && Mapped(mem') && mem'[0] == mem[0] && n < |BankOf(mem, dir)|
    requires Piece(mem', KeyPiece(dir, n)) == s.key && Piece(mem', IvPiece(dir, n)) == s.iv
    requires forall l | Exists(DecodeCaps(mem[0]), l) && l != KeyPiece(dir, n) && l != IvPiece(dir, n) ::
      Piece(mem', l) == Piece(mem, l)
    ensures BankOf(mem', dir) == BankOf(mem, dir)[n := s]
  {
  }

  lemma OtherBankSame(mem: seq<u32>, mem': seq<u32>, dir: Direction, n: nat, other: Direction)
    requires Mapped(mem) && Mapped(mem') && mem'[0] == mem[0] && other != dir
    requires forall l | Exists(DecodeCaps(mem[0]), l) && l != KeyPiece(dir, n) && l != IvPiece(dir, n) ::
      Piece(mem', l) == Piece(mem, l)
    ensures BankOf(mem', other) == BankOf(mem, other)
  {
  }

  /** `mem` after a key and an IV were copied into a slot of a bank. */
  function WithSlotStored(mem: seq<u32>, dir: Direction, n: nat, s: Slot): (r: seq<u32>)
    requires Mapped(mem) && n < |View(mem).Bank(dir)|
    ensures |r| == |mem|
  {
    var c := DecodeCaps(mem[0]);
    LayoutDisjoint(c, KeyPiece(dir, n), KeyPiece(dir, n));
    LayoutDisjoint(c, IvPiece(dir, n), IvPiece(dir, n));
    Overwrite(Overwrite(mem, At(c, KeyPiece(dir, n)), s.key), At(c, IvPiece(dir, n)), s.iv)
  }

  /** Storing a key and an IV changes that slot of that bank and nothing else. */
  lemma StoreSlot(mem: seq<u32>, dir: Direction, n: nat, s: Slot)
    requires Mapped(mem) && n < |View(mem).Bank(dir)|
    ensures var mem' := WithSlotStored(mem, dir, n, s);
      mem'[0] == mem[0] && Mapped(mem') && View(mem') == View(mem).WithSlot(dir, n, s)
  {
    var c := DecodeCaps(mem[0]);
    var k, v := KeyPiece(dir, n), IvPiece(dir, n);
    OverwritePiece(mem, k, s.key);
    OverwritePiece(Overwrite(mem, At(c, k), s.key), v, s.iv);
    SlotsDiffer(mem, WithSlotStored(mem, dir, n, s), dir, n, s);
  }

  // ------------------------------------------------------------ the register block itself

  const CONTROL: nat := 0
  const TX_CTRL: nat := 1
  const RX_CTRL: nat := 3
  const TX_KEY_SET_0: nat := 5
  const TX_KEY_SET_1: nat := 6
  const RX_KEY_SET_0: nat := 7
  const RX_KEY_SET_1: nat := 8

  class RegisterBlock {
    const regs: array<u32>

    constructor (mapping: array<u32>)
      ensures regs == mapping
    {
      regs := mapping;
    }

    ghost predicate Valid()
      reads this, regs
    {
      Mapped(regs[..])
    }

    ghost function Caps(): Caps
      requires Valid()
      reads this, regs
    {
      DecodeCaps(regs[0])
    }

    /** The abstract registers. */
    ghost function Abs(): RootPort
      requires Valid()
      reads this, regs
    {
      View(regs[..])
    }

    // mmio_read_reg32 and mmio_write_reg32 on a register of a stream block
    method ReadStreamReg(i: nat, f: nat) returns (v: u32)
      requires Valid() && i < Caps().streams && f < STREAM_DWORDS
      ensures v == Abs().streams[i].Get(f)
    {
      StoreStreamReg(regs[..], i, f, 0);
      v := regs[StreamAt(i) + f];
    }

    method WriteStreamReg(i: nat, f: nat, v: u32)
      requires Valid() && i < Caps().streams && f < STREAM_DWORDS
      modifies regs
      ensures Valid() && Caps() == old(Caps())
      ensures Abs() == old(Abs()).WithStream(i, old(Abs()).streams[i].With(f, v))
    {
      StoreStreamReg(regs[..], i, f, v);
      regs[StreamAt(i) + f] := v;
    }

    method RegMemcpyDw(at: nat, src: seq<u32>)
      requires at + |src| <= regs.Length
      modifies regs
      ensures regs[..] == Overwrite(old(regs[..]), at, src)
    {
      for k := 0 to |src|
        invariant regs[..at] == old(regs[..at]) && regs[at..at + k] == src[..k]
        invariant regs[at + k..] == old(regs[at + k..])
      {
        regs[at + k] := src[k];
        assert regs[at..at + k + 1] == regs[at..at + k] + [src[k]];
        assert regs[at + k + 1..] == old(regs[at + k..])[1..];
      }
    }

    /** Steps over the stream blocks and the slots of one bank to the addressed slot. */
    static method SlotPointers(c: Caps, direction: Direction, slotId: nat) returns (keySlot: nat, ivSlot: nat)
      ensures keySlot == At(c, KeyPiece(direction, slotId)) && ivSlot == At(c, IvPiece(direction, slotId))
      // both Tx arrays come before both Rx arrays
      ensures direction == RX ==>
        keySlot == 1 + 9 * c.streams + 8 * slotId && ivSlot == 1 + 9 * c.streams + 8 * c.txSlots + 2 * slotId
      ensures direction == TX ==>
        && keySlot == 1 + 9 * c.streams + 10 * c.txSlots + 8 * slotId
        && ivSlot == 1 + 9 * c.streams + 10 * c.txSlots + 8 * c.rxSlots + 2 * slotId
    {
      // Tx key_slots[0] and iv_slots[0]
      keySlot := StreamAt(0) + STREAM_DWORDS * c.streams;
      ivSlot := keySlot + KEY_DWORDS * c.txSlots;
      if direction == TX {
        // Rx key_slots[0] and iv_slots[0]
        keySlot := ivSlot + IV_DWORDS * c.txSlots;
        ivSlot := keySlot + KEY_DWORDS * c.rxSlots;
      }
      keySlot := keySlot + KEY_DWORDS * slotId;
      ivSlot := ivSlot + IV_DWORDS * slotId;
    }

    /** Stores a key and an IV; `direction` is the device's, the bank is the opposite one. */
    method KcbarSetKeySlot(direction: Direction, slotId: nat, key: Key, iv: Iv)
      requires Valid() && slotId < |Abs().Bank(direction)|
      modifies regs
      ensures Valid() && Caps() == old(Caps())
      ensures Abs() == old(Abs()).WithSlot(direction, slotId, Slot(key, iv))
    {
      ghost var mem := regs[..];
      var keySlot, ivSlot := SlotPointers(DecodeCaps(regs[0]), direction, slotId);
      LayoutDisjoint(Caps(), KeyPiece(direction, slotId), KeyPiece(direction, slotId));
      LayoutDisjoint(Caps(), IvPiece(direction, slotId), IvPiece(direction, slotId));
      StoreSlot(mem, direction, slotId, Slot(key, iv));
      RegMemcpyDw(keySlot, key);
      RegMemcpyDw(ivSlot, iv);
      assert regs[..] == WithSlotStored(mem, direction, slotId, Slot(key, iv));
    }

    method CfgRootportIdeKeys(i: nat, direction: Direction, ks: KeySet, sub: SubStream, slotId: nat, key: Key, iv: Iv)
      requires Valid() && i < Caps().streams && slotId < |Abs().Bank(direction)| && slotId < 0x400
      modifies regs
      ensures Valid() && Caps() == old(Caps())
      ensures Abs() == ProgramKey(old(Abs()), i, direction, ks, sub, slotId, Slot(key, iv))
      // the banks: device Rx keys go to the root port's Tx slots
      ensures Abs().tx == if direction == RX then old(Abs()).tx[slotId := Slot(key, iv)] else old(Abs()).tx
      ensures Abs().rx == if direction == TX then old(Abs()).rx[slotId := Slot(key, iv)] else old(Abs()).rx
      ensures Abs().streams == old(Abs()).streams[i := Abs().streams[i]]
      ensures IndexSet(old(Abs()).streams[i], Abs().streams[i], direction, ks, sub, slotId)
    {
      ProgramSetsIndex(Abs().streams[i], direction, ks, sub, slotId);
      KcbarSetKeySlot(direction, slotId, key, iv);
      var field: nat;
      if direction == TX {
        field := if ks == KS0 then RX_KEY_SET_0 else RX_KEY_SET_1;
      } else {
        field := if ks == KS0 then TX_KEY_SET_0 else TX_KEY_SET_1;
      }
      assert field == IndexField(direction, ks);
      var word := ReadStreamReg(i, field);
      WriteStreamReg(i, field, WithSlotIndex(word, sub, slotId));
    }

    method PrimeRpIdeKeySet(i: nat, direction: Direction, ks: KeySet)
      requires Valid() && i < Caps().streams
      modifies regs
      ensures Valid() && Caps() == old(Caps())
      ensures Abs() == Prime(old(Abs()), i, direction, ks)
      // bits 8 and 16 of the opposite direction's control register, and no other register
      ensures var st, st' := old(Abs()).streams[i], Abs().streams[i];
        var w' := if direction == RX then st'.txCtrl else st'.rxCtrl;
        && w' / 0x100 % 2 == (if ks == KS0 then 1 else 0) && w' / 0x1_0000 % 2 == (if ks == KS1 then 1 else 0)
        && st' == if direction == RX then st.(txCtrl := w') else st.(rxCtrl := w')
    {
      var field := if direction == RX then TX_CTRL else RX_CTRL;
      var word := ReadStreamReg(i, field);
      WriteStreamReg(i, field, WithPrime(word, ks));
      PrimeFields(word, ks);
    }

    method SetRpIdeKeySetSelect(i: nat, ks: KeySet)
      requires Valid() && i < Caps().streams
      modifies regs
      ensures Valid() && Caps() == old(Caps())
      ensures Abs() == SelectKeySet(old(Abs()), i, ks)
      ensures var st, st' := old(Abs()).streams[i], Abs().streams[i];
        && st' == st.(txCtrl := st'.txCtrl) && st'.txCtrl / 4 == st.txCtrl / 4
        && st'.txCtrl % 4 == if ks == KS0 then 1 else 2
    {
      var word := ReadStreamReg(i, TX_CTRL);
      WriteStreamReg(i, TX_CTRL, WithSelect(word, ks));
    }

    method EnableIdeStreamInKcbar(i: nat, enable: bool)
      requires Valid() && i < Caps().streams
      modifies regs
      ensures Valid() && Caps() == old(Caps())
      ensures Abs() == SetEnable(old(Abs()), i, enable)
      ensures var st, st' := old(Abs()).streams[i], Abs().streams[i];
        && st' == st.(control := st'.control) && st'.control / 2 == st.control / 2
        && st'.control % 2 == if enable then 1 else 0
    {
      var word := ReadStreamReg(i, CONTROL);
      WriteStreamReg(i, CONTROL, WithEnable(word, enable));
    }

    method InitializeKcbarRegisters(streamId: u8, i: nat)
      requires Valid() && i < Caps().streams
      modifies regs
      ensures Valid() && Caps() == old(Caps())
      ensures Abs() == InitStream(old(Abs()), i, streamId)
      ensures var st, st' := old(Abs()).streams[i], Abs().streams[i];
        && st'.control / 0x100_0000 == streamId && st'.control % 0x100_0000 == 0
        && st' == Stream(st'.control, 0, st.txStatus, 0, st.rxStatus, 0, 0, 0, 0)
    {
      WriteStreamReg(i, TX_CTRL, 0);
      WriteStreamReg(i, RX_CTRL, 0);
      WriteStreamReg(i, TX_KEY_SET_0, 0);
      WriteStreamReg(i, TX_KEY_SET_1, 0);
      WriteStreamReg(i, RX_KEY_SET_0, 0);
      WriteStreamReg(i, RX_KEY_SET_1, 0);
      WriteStreamReg(i, CONTROL, streamId * 0x100_0000);
    }
  }
}
