/** Keys and IVs of a CXL IDE stream: how they are generated, sent to the device and placed in the
    root port, whose IV register keeps only 64 of the 96 bits. */
module CxlKey {
  import opened Words

  const KEY_BYTES: nat := 32
  const DW_BYTES: nat := 4

  type Bytes = s: seq<u8> | |s| == KEY_BYTES witness seq<u8>(KEY_BYTES, _ => 0)

  /** The IV of a KEY_PROG message, dword by dword. */
  datatype Iv = Iv(d0: u32, d1: u32, d2: u32)
  datatype Material = Material(key: Bytes, iv: Iv)

  /** Whether the device is told to use the default IV or the one in the message. */
  datatype IvKind = DefaultIv | InitialIv

  // CXL_IDE_KM_KEY_SUB_STREAM_CXL << 24
  const SUB_STREAM: u32 := 0x8000_0000
  const DEFAULT_IV: Iv := Iv(SUB_STREAM, 0, 1)

  const FIXED_RX_BYTE: u8 := 0x22
  const FIXED_TX_BYTE: u8 := 0x11

  function Repeated(b: u8): Bytes { seq<u8>(KEY_BYTES, _ => b) }

  /** What the generator gets from outside: the answer to GET_KEY and a random number, either of which
      may fail. */
  datatype Sources = Sources(getKey: Option<Material>, random: Option<Bytes>)
  datatype Modes = Modes(fixedKey: bool, keyGen: bool, ivGen: bool)

  datatype Generated = Generated(material: Material, kind: IvKind)

  /** The device is asked for what it is to transmit with, if it can generate either half. */
  predicate AsksDevice(dir: Direction, m: Modes) { dir == TX && !m.fixedKey && (m.keyGen || m.ivGen) }

  /** Every key is a random number but the fixed ones and those the device generates. */
  predicate NeedsRandom(dir: Direction, m: Modes) { !m.fixedKey && !(dir == TX && m.keyGen) }

  /** Which key each of the modes gives. */
  predicate KeyIsFrom(key: Bytes, dir: Direction, m: Modes, s: Sources) {
    && (m.fixedKey ==> forall k | 0 <= k < 32 :: key[k] == if dir == RX then 0x22 else 0x11)
    && (!m.fixedKey && dir == TX && m.keyGen ==> s.getKey.Some? && key == s.getKey.value.key)
    && (NeedsRandom(dir, m) ==> s.random == Some(key))
  }

  /** The device's IV is taken if it generates IVs and this one has the fixed first dword, else the default one. */
  predicate IvIsFrom(g: Generated, dir: Direction, m: Modes, s: Sources) {
    && (g.kind.InitialIv? <==>
          dir == TX && m.ivGen && !m.fixedKey && s.getKey.Some? && s.getKey.value.iv.d0 == 0x8000_0000)
    && g.material.iv == if g.kind.InitialIv? then s.getKey.value.iv else Iv(0x8000_0000, 0, 1)
  }

  /** cxl_ide_generate_key, branch by branch. */
  method GenerateKey(dir: Direction, m: Modes, s: Sources) returns (r: Option<Generated>)
    ensures r == Generate(dir, m, s)
    // it fails exactly if the device or the random number it needs fails
    ensures r.None? <==> (AsksDevice(dir, m) && s.getKey.None?) || (NeedsRandom(dir, m) && s.random.None?)
    ensures r.Some? ==> KeyIsFrom(r.value.material.key, dir, m, s) && IvIsFrom(r.value, dir, m, s)
  {
    GeneratedExactly(dir, m, s, Generate(dir, m, s));
    var iv := DEFAULT_IV;
    var key := Repeated(0);
    var kind := DefaultIv;
    var result := true;
    if m.fixedKey {
      key := Repeated(if dir == RX then FIXED_RX_BYTE else FIXED_TX_BYTE);
    } else if (m.keyGen || m.ivGen) && dir == TX {
      iv := Iv(0, 0, 0);
      if s.getKey.None? {
        return None;
      }
      key, iv := s.getKey.value.key, s.getKey.value.iv;
      if !m.keyGen {
        if s.random.None? {
          return None;
        }
        key := s.random.value;
      }
      if m.ivGen {
        kind := InitialIv;
        if iv.d0 != SUB_STREAM {
          kind, iv := DefaultIv, DEFAULT_IV;
        }
      } else {
        iv := DEFAULT_IV;
      }
    } else {
      result := s.random.Some?;
      if result {
        key := s.random.value;
      }
    }
    return if result then Some(Generated(Material(key, iv), kind)) else None;
  }

  /** Where key and IV come from. */
  function Generate(dir: Direction, m: Modes, s: Sources): Option<Generated> {
    var asksDevice := !m.fixedKey && (m.keyGen || m.ivGen) && dir == TX;
    if asksDevice && s.getKey.None? then None
    else
      var key :=
        if m.fixedKey then Some(Repeated(if dir == RX then FIXED_RX_BYTE else FIXED_TX_BYTE))
        else if asksDevice && m.keyGen then Some(s.getKey.value.key)
        else s.random;
      var deviceIv := asksDevice && m.ivGen && s.getKey.value.iv.d0 == SUB_STREAM;
      if key.None? then None
      else Some(Generated(Material(key.value, if deviceIv then s.getKey.value.iv else DEFAULT_IV),
                          if deviceIv then InitialIv else DefaultIv))
  }

  /** What the generator gives, mode by mode: the modes and sources determine it. */
  lemma GeneratedExactly(dir: Direction, m: Modes, s: Sources, r: Option<Generated>)
    ensures r == Generate(dir, m, s) <==>
      if (AsksDevice(dir, m) && s.getKey.None?) || (NeedsRandom(dir, m) && s.random.None?) then r.None?
      else r.Some? && KeyIsFrom(r.value.material.key, dir, m, s) && IvIsFrom(r.value, dir, m, s)
  {
    if m.fixedKey && r.Some? && KeyIsFrom(r.value.material.key, dir, m, s) {
      assert r.value.material.key == Repeated(if dir == RX then FIXED_RX_BYTE else FIXED_TX_BYTE);
    }
  }

  /** The first dword of the IV is the fixed one, and an IV announced as the default one is the default one. */
  predicate GoodIv(g: Generated) {
    g.material.iv.d0 == SUB_STREAM && (g.kind.DefaultIv? ==> g.material.iv == DEFAULT_IV)
  }

  /** The generator's invariant, on every path on which it succeeds. */
  lemma GeneratedIv(dir: Direction, m: Modes, s: Sources)
    ensures Generate(dir, m, s).Some? ==> GoodIv(Generate(dir, m, s).value)
  {
  }

  // ------------------------------------------------------------ the root port's side

  /** The 64-bit IV register: the last dword, then the middle one. */
  datatype RpIv = RpIv(low: u32, high: u32)

  /** cxl_construct_rp_iv drops the first dword. */
  function ConstructRpIv(iv: Iv): RpIv { RpIv(iv.d2, iv.d1) }

  /** What the device's IV must have been. */
  function Recover(r: RpIv): Iv { Iv(SUB_STREAM, r.high, r.low) }

  /** The register determines the device's IV exactly if its first dword is the fixed one. */
  lemma RecoverExactly(iv: Iv)
    ensures Recover(ConstructRpIv(iv)) == iv <==> iv.d0 == SUB_STREAM
    ensures ConstructRpIv(Iv(0x8000_0000, 0, 1)) == RpIv(1, 0)
  {
  }

  /** The place of a byte when the bytes of its dword are put in the opposite order. */
  function Mirror(k: nat): (r: nat)
    ensures k < KEY_BYTES ==> r < KEY_BYTES
  {
    k - k % DW_BYTES + (DW_BYTES - 1 - k % DW_BYTES)
  }

  lemma MirrorInDword(i: nat, j: nat)
    requires j < DW_BYTES
    ensures Mirror(DW_BYTES * i + j) == DW_BYTES * i + (DW_BYTES - 1 - j)
  {
    assert (DW_BYTES * i + j) % DW_BYTES == j;
  }

  /** The bytes of every dword in the opposite order. */
  function SwappedInDwords(s: Bytes): (r: Bytes)
    ensures forall k | 0 <= k < KEY_BYTES :: r[k] == s[Mirror(k)]
  {
    seq<u8>(KEY_BYTES, k requires 0 <= k < KEY_BYTES => s[Mirror(k)])
  }

  /** Nothing of a key is lost: swapping twice gives it back. */
  lemma SwappedTwice(s: Bytes)
    ensures SwappedInDwords(SwappedInDwords(s)) == s
  {
    var t := SwappedInDwords(SwappedInDwords(s));
    forall k | 0 <= k < KEY_BYTES ensures t[k] == s[k] {
      MirrorInDword(k / DW_BYTES, k % DW_BYTES);
      MirrorInDword(k / DW_BYTES, DW_BYTES - 1 - k % DW_BYTES);
    }
  }

  /** revert_bytes_inside_dw, on the `i`-th dword: swaps the outer and the inner two bytes. */
  method RevertBytesInsideDw(bytes: array<u8>, i: nat)
    requires DW_BYTES * i + DW_BYTES <= bytes.Length
    modifies bytes
    ensures forall k | DW_BYTES * i <= k < DW_BYTES * i + DW_BYTES :: bytes[k] == old(bytes[2 * DW_BYTES * i + 3 - k])
    ensures forall k | 0 <= k < bytes.Length && !(DW_BYTES * i <= k < DW_BYTES * i + DW_BYTES) ::
      bytes[k] == old(bytes[k])
  {
    var at := DW_BYTES * i;
    for n := 0 to 2
      invariant forall k | at <= k < at + DW_BYTES ::
        bytes[k] == if k < at + n || at + 3 - n < k then old(bytes[2 * at + 3 - k]) else old(bytes[k])
      invariant forall k | 0 <= k < bytes.Length && !(at <= k < at + DW_BYTES) :: bytes[k] == old(bytes[k])
    {
      var tmp := bytes[at + n];
      bytes[at + n] := bytes[at + 3 - n];
      bytes[at + 3 - n] := tmp;
    }
  }

  /** cxl_construct_rp_keys: copies a dword at a time and reverts it. */
  method ConstructRpKeys(key: Bytes) returns (r: Bytes)
    ensures r == SwappedInDwords(key)
  {
    var rpKeys := new u8[KEY_BYTES];
    for i := 0 to 8
      invariant forall k | 0 <= k < DW_BYTES * i :: rpKeys[k] == key[Mirror(k)]
    {
      ConstructDword(key, rpKeys, i);
    }
    r := rpKeys[..];
  }

  method ConstructDword(key: Bytes, rpKeys: array<u8>, i: nat)
    requires i < 8 && rpKeys.Length == KEY_BYTES
    modifies rpKeys
    ensures forall k | DW_BYTES * i <= k < DW_BYTES * i + DW_BYTES :: rpKeys[k] == key[Mirror(k)]
    ensures forall k | 0 <= k < DW_BYTES * i :: rpKeys[k] == old(rpKeys[k])
  {
    CopyDword(key, rpKeys, i);
    RevertBytesInsideDw(rpKeys, i);
    forall k | DW_BYTES * i <= k < DW_BYTES * i + DW_BYTES ensures rpKeys[k] == key[Mirror(k)] {
      MirrorInDword(i, k - DW_BYTES * i);
    }
  }

  method CopyDword(key: Bytes, rpKeys: array<u8>, i: nat)
    requires i < 8 && rpKeys.Length == KEY_BYTES
    modifies rpKeys
    ensures forall k | DW_BYTES * i <= k < DW_BYTES * i + DW_BYTES :: rpKeys[k] == key[k]
    ensures forall k | 0 <= k < DW_BYTES * i :: rpKeys[k] == old(rpKeys[k])
  {
    var at := DW_BYTES * i;
    rpKeys[at], rpKeys[at + 1], rpKeys[at + 2], rpKeys[at + 3] := key[at], key[at + 1], key[at + 2], key[at + 3];
  }

  /** What the device works with once it has taken a message: the default IV if it is told so. */
  function Used(g: Generated): Material {
    if g.kind.DefaultIv? then g.material.(iv := DEFAULT_IV) else g.material
  }

  // ------------------------------------------------------------ setting up the stream

  /** What one direction of the root port's registers holds. */
  datatype RpKey = RpKey(key: Bytes, iv: RpIv)

  /** What the device has of one direction: the material it accepted and whether it was told to go. */
  datatype DevKey = DevKey(material: Option<Material>, active: bool)

  /** How a message fares: whether the library reports success, and whether the device does what it says.
      A device may refuse a KEY_PROG in an acknowledgement that arrives well; the setup only logs that
      status. A message reported as failed may have taken effect all the same. */
  datatype Answer = Answer(delivered: bool, accepted: bool)

  datatype Answers = Answers(progRx: Answer, progTx: Answer, goRx: Answer, goTx: Answer)

  /** The root port's registers of one CXL link and the device behind it. */
  datatype Link = Link(txReg: RpKey, rxReg: RpKey, txValid: bool, rxValid: bool, linkEnabled: bool, started: bool,
                       devRx: DevKey, devTx: DevKey)

  /** Both sides hold the same key and IV for a direction named from the device's side. */
  ghost predicate Agree(rp: RpKey, dev: DevKey) {
    && dev.material.Some?
    && rp.key == SwappedInDwords(dev.material.value.key)
    && Recover(rp.iv) == dev.material.value.iv
  }

  /** Both sides agree in both directions, and the root port may use its keys. */
  ghost predicate Keyed(l: Link) {
    Agree(l.txReg, l.devRx) && Agree(l.rxReg, l.devTx) && l.txValid && l.rxValid
  }

  /** The root port's registers of a direction determine the key and IV that the device uses. */
  lemma PlacedDetermines(rp: RpKey, a: DevKey, b: DevKey)
    requires Agree(rp, a) && Agree(rp, b)
    ensures a.material == b.material
  {
    SwappedTwice(a.material.value.key);
    SwappedTwice(b.material.value.key);
  }

  function Placed(g: Generated): RpKey { RpKey(SwappedInDwords(g.material.key), ConstructRpIv(g.material.iv)) }

  function Take(dev: DevKey, g: Generated, a: Answer): DevKey {
    if a.accepted then dev.(material := Some(Used(g))) else dev
  }

  /** A K_SET_GO that arrives takes effect: its acknowledgement has no status. */
  function GoOn(dev: DevKey, a: Answer): DevKey { dev.(active := dev.active || a.delivered || a.accepted) }

  datatype Run = Run(l: Link, ok: bool)

  /** KEY_PROG for reception and for transmission. */
  function SendKeysRun(l: Link, rx: Generated, tx: Generated, a: Answers): Run {
    var l1 := l.(devRx := Take(l.devRx, rx, a.progRx));
    if !a.progRx.delivered then Run(l1, false)
    else Run(l1.(devTx := Take(l1.devTx, tx, a.progTx)), a.progTx.delivered)
  }

  function PlaceKeysIn(l: Link, rx: Generated, tx: Generated): Link {
    l.(rxReg := Placed(tx), txReg := Placed(rx), txValid := true, rxValid := true)
  }

  /** K_SET_GO for reception, the root port's switches, K_SET_GO for transmission. */
  function GoAndStartRun(l: Link, a: Answers, keyRefresh: bool): Run {
    var l1 := l.(devRx := GoOn(l.devRx, a.goRx));
    if !a.goRx.delivered then Run(l1, false)
    else
      var l2 := l1.(linkEnabled := l1.linkEnabled || !keyRefresh, started := true);
      Run(l2.(devTx := GoOn(l2.devTx, a.goTx)), a.goTx.delivered)
  }

  /** The setup when key material could be generated for both directions. */
  function SetupRun(l: Link, rx: Generated, tx: Generated, a: Answers, keyRefresh: bool): Run {
    var sent := SendKeysRun(l, rx, tx, a);
    if sent.ok then GoAndStartRun(PlaceKeysIn(sent.l, rx, tx), a, keyRefresh) else sent
  }

  /** The device holds the generated material if it accepts it now, or held the same before. */
  predicate Holds(dev: DevKey, g: Generated, a: Answer) { a.accepted || dev.material == Some(Used(g)) }

  lemma PlacedAgreesExactly(g: Generated, dev: DevKey)
    requires GoodIv(g)
    ensures Agree(Placed(g), dev) <==> dev.material == Some(Used(g))
  {
    RecoverExactly(g.material.iv);
    if Agree(Placed(g), dev) {
      PlacedDetermines(Placed(g), dev, dev.(material := Some(Used(g))));
    }
  }

  /** Whenever the setup goes as far as K_SET_GO, and so whenever it succeeds, both sides agree if and only
      if the device has not refused new material in either direction. */
  lemma KeyedExactly(l: Link, rx: Generated, tx: Generated, a: Answers, keyRefresh: bool)
    requires GoodIv(rx) && GoodIv(tx) && SendKeysRun(l, rx, tx, a).ok
    ensures Keyed(SetupRun(l, rx, tx, a, keyRefresh).l) <==>
      Holds(l.devRx, rx, a.progRx) && Holds(l.devTx, tx, a.progTx)
  {
    var l' := SetupRun(l, rx, tx, a, keyRefresh).l;
    PlacedAgreesExactly(rx, l'.devRx);
    PlacedAgreesExactly(tx, l'.devTx);
  }

  /** A device that starts without keys agrees after a successful setup, and receives and transmits with
      the agreed keys, if and only if it accepted both. */
  lemma SetupAgreesExactly(l: Link, rx: Generated, tx: Generated, a: Answers, keyRefresh: bool)
    requires GoodIv(rx) && GoodIv(tx) && l.devRx.material.None? && l.devTx.material.None?
    requires SetupRun(l, rx, tx, a, keyRefresh).ok
    ensures var l' := SetupRun(l, rx, tx, a, keyRefresh).l;
      l'.devRx.active && l'.devTx.active && l'.started && (Keyed(l') <==> a.progRx.accepted && a.progTx.accepted)
  {
    KeyedExactly(l, rx, tx, a, keyRefresh);
  }

  /** Both KEY_PROGs have come through; and then the K_SET_GO for reception. */
  predicate Sent(a: Answers) { a.progRx.delivered && a.progTx.delivered }
  predicate Going(a: Answers) { Sent(a) && a.goRx.delivered }

  /** Where a setup with this material leaves the device ... */
  predicate DeviceEnds(l: Link, l': Link, rx: Generated, tx: Generated, a: Answers) {
    && l'.devRx.material == (if a.progRx.accepted then Some(Used(rx)) else l.devRx.material)
    && l'.devTx.material == (if a.progRx.delivered && a.progTx.accepted then Some(Used(tx)) else l.devTx.material)
    && (l'.devRx.active <==> l.devRx.active || (Sent(a) && (a.goRx.delivered || a.goRx.accepted)))
    && (l'.devTx.active <==> l.devTx.active || (Going(a) && (a.goTx.delivered || a.goTx.accepted)))
  }

  /** ... and the root port, whose Tx registers serve the device's reception. */
  predicate PortEnds(l: Link, l': Link, rx: Generated, tx: Generated, a: Answers, keyRefresh: bool) {
    && l'.txReg == (if Sent(a) then RpKey(SwappedInDwords(rx.material.key), ConstructRpIv(rx.material.iv)) else l.txReg)
    && l'.rxReg == (if Sent(a) then RpKey(SwappedInDwords(tx.material.key), ConstructRpIv(tx.material.iv)) else l.rxReg)
    && (l'.txValid <==> l.txValid || Sent(a)) && (l'.rxValid <==> l.rxValid || Sent(a))
    && (l'.linkEnabled <==> l.linkEnabled || (Going(a) && !keyRefresh)) && (l'.started <==> l.started || Going(a))
  }

  /** How far a setup came decides what has changed, register by register. */
  lemma SetupEnds(l: Link, rx: Generated, tx: Generated, a: Answers, keyRefresh: bool)
    ensures var l' := SetupRun(l, rx, tx, a, keyRefresh).l;
      DeviceEnds(l, l', rx, tx, a) && PortEnds(l, l', rx, tx, a, keyRefresh)
  {
    SetupEndsDevice(l, rx, tx, a, keyRefresh);
    SetupEndsPort(l, rx, tx, a, keyRefresh);
  }

  lemma SetupEndsDevice(l: Link, rx: Generated, tx: Generated, a: Answers, keyRefresh: bool)
    ensures DeviceEnds(l, SetupRun(l, rx, tx, a, keyRefresh).l, rx, tx, a)
  {
    var sent := SendKeysRun(l, rx, tx, a);
    assert sent.ok == Sent(a);
    if sent.ok {
      var placed := PlaceKeysIn(sent.l, rx, tx);
      assert placed.devRx == Take(l.devRx, rx, a.progRx) && placed.devTx == Take(l.devTx, tx, a.progTx);
      assert SetupRun(l, rx, tx, a, keyRefresh) == GoAndStartRun(placed, a, keyRefresh);
    }
  }

  lemma SetupEndsPort(l: Link, rx: Generated, tx: Generated, a: Answers, keyRefresh: bool)
    ensures PortEnds(l, SetupRun(l, rx, tx, a, keyRefresh).l, rx, tx, a, keyRefresh)
  {
  }

  predicate SwitchedOn(l: Link, l': Link) { (l'.linkEnabled && !l.linkEnabled) || (l'.started && !l.started) }

  /** Encryption is switched on or started only after both KEY_PROGs have come through, both keys are
      placed and valid and the device was told to receive with them; both sides agree then if and only if
      the device has refused neither key. */
  lemma StartExactly(l: Link, rx: Generated, tx: Generated, a: Answers, keyRefresh: bool)
    requires GoodIv(rx) && GoodIv(tx) && SwitchedOn(l, SetupRun(l, rx, tx, a, keyRefresh).l)
    ensures var l' := SetupRun(l, rx, tx, a, keyRefresh).l;
      && l'.txReg == Placed(rx) && l'.rxReg == Placed(tx) && l'.txValid && l'.rxValid && l'.devRx.active
      && (Keyed(l') <==> Holds(l.devRx, rx, a.progRx) && Holds(l.devTx, tx, a.progTx))
  {
    KeyedExactly(l, rx, tx, a, keyRefresh);
  }

  const NO_KEY: RpKey := RpKey(Repeated(0), RpIv(0, 0))
  const FRESH: Link := Link(NO_KEY, NO_KEY, false, false, false, false, DevKey(None, false), DevKey(None, false))

  /** A device that refuses a key in a well-delivered acknowledgement gets its link encrypted, and the
      setup reports success, with nothing agreed. */
  lemma RefusedKeyStarts(rx: Generated, tx: Generated)
    ensures var well, refused := Answer(true, true), Answer(true, false);
      var run := SetupRun(FRESH, rx, tx, Answers(refused, refused, well, well), false);
      run.ok && run.l.linkEnabled && run.l.started && !Agree(run.l.txReg, run.l.devRx) &&
        !Agree(run.l.rxReg, run.l.devTx)
  {
  }

  class CxlPort {
    var txReg: RpKey
    var rxReg: RpKey
    var txValid: bool
    var rxValid: bool
    var linkEnabled: bool
    var started: bool
    var devRx: DevKey
    var devTx: DevKey

    constructor ()
      ensures State() == FRESH
    {
      txReg, rxReg, txValid, rxValid, linkEnabled, started := NO_KEY, NO_KEY, false, false, false, false;
      devRx, devTx := DevKey(None, false), DevKey(None, false);
    }

    ghost function State(): Link
      reads this
    {
      Link(txReg, rxReg, txValid, rxValid, linkEnabled, started, devRx, devTx)
    }

    /** cxl_cfg_rp_link_enc_key_iv: the device's direction RX is served by the root port's Tx registers. */
    method CfgRpLinkEncKeyIv(dir: Direction, key: Bytes, iv: RpIv)
      modifies `txReg, `rxReg
      ensures dir == RX ==> txReg == RpKey(key, iv) && rxReg == old(rxReg)
      ensures dir == TX ==> rxReg == RpKey(key, iv) && txReg == old(txReg)
    {
      if dir == RX {
        txReg := RpKey(key, iv);
      } else {
        rxReg := RpKey(key, iv);
      }
    }

    /** KEY_PROG for both directions; only the status of the exchange decides how to go on. */
    method SendKeys(rx: Generated, tx: Generated, a: Answers) returns (ok: bool)
      modifies `devRx, `devTx
      ensures Run(State(), ok) == SendKeysRun(old(State()), rx, tx, a)
    {
      devRx := Take(devRx, rx, a.progRx);
      if !a.progRx.delivered { return false; }
      devTx := Take(devTx, tx, a.progTx);
      return a.progTx.delivered;
    }

    /** Places both keys and IVs in the registers of the opposite directions and marks them valid. */
    method PlaceKeys(rx: Generated, tx: Generated)
      modifies `txReg, `rxReg, `txValid, `rxValid
      ensures State() == PlaceKeysIn(old(State()), rx, tx)
    {
      var keys := ConstructRpKeys(tx.material.key);
      CfgRpLinkEncKeyIv(TX, keys, ConstructRpIv(tx.material.iv));
      keys := ConstructRpKeys(rx.material.key);
      CfgRpLinkEncKeyIv(RX, keys, ConstructRpIv(rx.material.iv));
      txValid, rxValid := true, true;
    }

    /** K_SET_GO for reception, the root port's switches, K_SET_GO for transmission. */
    method GoAndStart(a: Answers, keyRefresh: bool) returns (ok: bool)
      modifies `devRx, `devTx, `linkEnabled, `started
      ensures Run(State(), ok) == GoAndStartRun(old(State()), a, keyRefresh)
    {
      devRx := GoOn(devRx, a.goRx);
      if !a.goRx.delivered { return false; }
      if !keyRefresh {
        linkEnabled := true;
      }
      started := true;
      devTx := GoOn(devTx, a.goTx);
      return a.goTx.delivered;
    }

    /** cxl_setup_ide_stream, when its GET_KEY settings are consistent.  It succeeds exactly if both
        directions get their material and all four messages come through; a run that switches encryption
        on has both keys in place and the device receiving, and both sides agree in it exactly if the
        device has refused neither key. */
    method CxlSetupIdeStream(m: Modes, sRx: Sources, sTx: Sources, a: Answers, keyRefresh: bool) returns (ok: bool)
      modifies this
      ensures var rx, tx := Generate(RX, m, sRx), Generate(TX, m, sTx);
        && (ok <==> rx.Some? && tx.Some?
                    && a.progRx.delivered && a.progTx.delivered && a.goRx.delivered && a.goTx.delivered)
        && (rx.None? || tx.None? ==> State() == old(State()))
        && (rx.Some? && tx.Some? ==> DeviceEnds(old(State()), State(), rx.value, tx.value, a))
        && (rx.Some? && tx.Some? ==> PortEnds(old(State()), State(), rx.value, tx.value, a, keyRefresh))
        && (rx.Some? && tx.Some? ==> Run(State(), ok) == SetupRun(old(State()), rx.value, tx.value, a, keyRefresh))
        && (ok ==> devRx.active && devTx.active && started && (keyRefresh || linkEnabled))
        && (ok || SwitchedOn(old(State()), State()) ==>
              && txReg == Placed(rx.value) && rxReg == Placed(tx.value) && txValid && rxValid && devRx.active
              && (Keyed(State()) <==> Holds(old(devRx), rx.value, a.progRx) && Holds(old(devTx), tx.value, a.progTx)))
    {
      var rx := GenerateKey(RX, m, sRx);
      if rx.None? { return false; }
      var tx := GenerateKey(TX, m, sTx);
      if tx.None? { return false; }
      GeneratedIv(RX, m, sRx);
      GeneratedIv(TX, m, sTx);
      ghost var before := State();
      SetupEnds(before, rx.value, tx.value, a, keyRefresh);
      ok := SendKeys(rx.value, tx.value, a);
      if !ok { return; }
      KeyedExactly(before, rx.value, tx.value, a, keyRefresh);
      PlaceKeys(rx.value, tx.value);
      ok := GoAndStart(a, keyRefresh);
    }
  }
}
