/** Key setup and key switch of one PCIe IDE stream, as the sequence of device messages
    and register accesses that setup_ide_stream and ide_key_switch_to perform.  The
    device may answer every message as it likes, and a run stops at the first failure. */
module KeyProtocol {
  import opened Words
  import opened Kcbar
  import opened SlotAlloc

  /** A key and IV as they travel in a KEY_PROG message. */
  datatype Material = Material(key: Key, iv: Iv)

  datatype KeyId = KeyId(ks: KeySet, dir: Direction, sub: SubStream)
  datatype Path = Path(dir: Direction, sub: SubStream)

  /** The device: the keys it accepted, the key set each direction and sub-stream was told
      to use (K_SET_GO), and the enable bit of its IDE capability. */
  datatype Device = Device(keys: map<KeyId, Material>, active: map<Path, KeySet>, enabled: bool)

  /** The root port's KCBAR, the enable bit of its IDE capability, and the device. */
  datatype World = World(rp: RootPort, rpEnabled: bool, dev: Device)

  /** The device's IV is (0, PCIE_IDE_IV_INIT_VALUE); the root port's slot starts with that value. */
  const DEVICE_IV: Iv := [0, 1]
  const ROOT_PORT_IV: Iv := [1, 0]

  // TEEIO_TEST_FIXED_RX_KEY_BYTE_VALUE and TEEIO_TEST_FIXED_TX_KEY_BYTE_VALUE, in every byte
  const FIXED_RX_DWORD: u32 := 0x2222_2222
  const FIXED_TX_DWORD: u32 := 0x1111_1111

  /** What one call works on: the stream's block, the key set to program, its slots. */
  datatype Session = Session(i: nat, ks: KeySet, ids: SlotIds, fixedKey: bool)

  datatype Step =
    | Query
    | KeyProg(dir: Direction, sub: SubStream)
    | PrimeKeys(dir: Direction)
    | KSetGo(dir: Direction, sub: SubStream)
    | Select
    | EnableDevice
    | EnableRootPort
    | CheckSecure

  /** The outcome of a step.  When a message fails (`!ok`) it may still have taken effect in
      the device, as when only the response is lost; `key` is the random number drawn. */
  datatype Reply = Reply(ok: bool, took: bool, key: Key)

  datatype Run = Run(w: World, ok: bool)

  predicate Fits(s: Session, rp: RootPort) {
    && s.i < |rp.streams|
    && forall dir, sub :: s.ids.Id(dir, sub) < |rp.Bank(dir)| && s.ids.Id(dir, sub) < 0x400
  }

  function KeyUsed(s: Session, dir: Direction, r: Reply): Key {
    if !s.fixedKey then r.key
    else if dir == RX then seq(KEY_DWORDS, _ => FIXED_RX_DWORD)
    else seq(KEY_DWORDS, _ => FIXED_TX_DWORD)
  }

  /** The device stores a key it was sent. */
  function Accept(dev: Device, s: Session, dir: Direction, sub: SubStream, r: Reply): Device {
    dev.(keys := dev.keys[KeyId(s.ks, dir, sub) := Material(KeyUsed(s, dir, r), DEVICE_IV)])
  }

  function Go(dev: Device, s: Session, dir: Direction, sub: SubStream): Device {
    dev.(active := dev.active[Path(dir, sub) := s.ks])
  }

  /** ide_km_key_prog: draw a key, send it to the device, store its reversal in the root port. */
  function ProgramStep(s: Session, w: World, dir: Direction, sub: SubStream, r: Reply): (res: Run)
    requires Fits(s, w.rp)
    ensures Fits(s, res.w.rp)
  {
    if r.ok then
      var slot := Slot(Reversed(KeyUsed(s, dir, r)), ROOT_PORT_IV);
      var rp := ProgramKey(w.rp, s.i, dir, s.ks, sub, s.ids.Id(dir, sub), slot);
      Run(w.(dev := Accept(w.dev, s, dir, sub, r), rp := rp), true)
    else Run(if r.took then w.(dev := Accept(w.dev, s, dir, sub, r)) else w, false)
  }

  /** ide_km_key_set_go: the device starts to use the key set for one path. */
  function GoStep(s: Session, w: World, dir: Direction, sub: SubStream, r: Reply): Run {
    Run(if r.ok || r.took then w.(dev := Go(w.dev, s, dir, sub)) else w, r.ok)
  }

  function PrimeStep(s: Session, w: World, dir: Direction): (res: Run)
    requires Fits(s, w.rp)
    ensures Fits(s, res.w.rp)
  {
    Run(w.(rp := Prime(w.rp, s.i, dir, s.ks)), true)
  }

  function SelectStep(s: Session, w: World): (res: Run)
    requires Fits(s, w.rp)
    ensures Fits(s, res.w.rp)
  {
    Run(w.(rp := SelectKeySet(w.rp, s.i, s.ks)), true)
  }

  function DoStep(s: Session, w: World, st: Step, r: Reply): (res: Run)
    requires Fits(s, w.rp)
    ensures Fits(s, res.w.rp) && |res.w.rp.streams| == |w.rp.streams|
  {
    match st
    case Query | CheckSecure => Run(w, r.ok)
    case KeyProg(dir, sub) => ProgramStep(s, w, dir, sub, r)
    case PrimeKeys(dir) => PrimeStep(s, w, dir)
    case KSetGo(dir, sub) => GoStep(s, w, dir, sub, r)
    case Select => SelectStep(s, w)
    case EnableDevice => Run(w.(dev := w.dev.(enabled := true)), true)
    case EnableRootPort => Run(w.(rp := SetEnable(w.rp, s.i, true), rpEnabled := true), true)
  }

  /** The world after the first `n` steps, or after the first failure among them. */
  function Exec(s: Session, w: World, steps: seq<Step>, replies: seq<Reply>, n: nat): (res: Run)
    requires Fits(s, w.rp) && n <= |steps| && n <= |replies|
    ensures Fits(s, res.w.rp) && |res.w.rp.streams| == |w.rp.streams|
  {
    if n == 0 then Run(w, true)
    else
      var before := Exec(s, w, steps, replies, n - 1);
      if before.ok then DoStep(s, before.w, steps[n - 1], replies[n - 1]) else before
  }

  /** Nothing runs after a failure. */
  lemma {:induction false} ExecStopped(s: Session, w: World, steps: seq<Step>, replies: seq<Reply>, n: nat, m: nat)
    requires Fits(s, w.rp) && n <= m <= |steps| && m <= |replies| && !Exec(s, w, steps, replies, n).ok
    ensures Exec(s, w, steps, replies, m) == Exec(s, w, steps, replies, n)
  {
    if n < m {
      ExecStopped(s, w, steps, replies, n, m - 1);
    }
  }

  /** The world after a whole list of steps. */
  function ExecAll(s: Session, w: World, steps: seq<Step>, replies: seq<Reply>): (res: Run)
    requires Fits(s, w.rp) && |steps| == |replies|
    ensures Fits(s, res.w.rp) && |res.w.rp.streams| == |w.rp.streams|
  {
    Exec(s, w, steps, replies, |steps|)
  }

  // Both procedures program and prime the Rx keys, then the Tx keys ...
  const PROGRAM: seq<Step> := [
    KeyProg(RX, PR), KeyProg(RX, NPR), KeyProg(RX, CPL), PrimeKeys(RX),
    KeyProg(TX, PR), KeyProg(TX, NPR), KeyProg(TX, CPL), PrimeKeys(TX)]

  // ... and then let the device receive, switch the root port's Tx, and let the device transmit.
  const GO: seq<Step> := [
    KSetGo(RX, PR), KSetGo(RX, NPR), KSetGo(RX, CPL), Select,
    KSetGo(TX, PR), KSetGo(TX, NPR), KSetGo(TX, CPL)]

  const ENABLE: seq<Step> := [EnableDevice, EnableRootPort]

  function SetupSteps(skipKSetGo: bool): seq<Step> {
    [Query] + if skipKSetGo then PROGRAM else PROGRAM + GO + ENABLE + [CheckSecure]
  }

  function SwitchSteps(skipKSetGo: bool): seq<Step> {
    if skipKSetGo then PROGRAM else PROGRAM + GO + [CheckSecure]
  }

  // ------------------------------------------------------------ what a step achieves

  /** The key and IV that the root port's index register of the opposite direction leads to
      are the dword reversal of what the device accepted. */
  predicate Agrees(w: World, i: nat, ks: KeySet, dir: Direction, sub: SubStream) {
    && i < |w.rp.streams|
    && var n := SlotIndex(w.rp.streams[i].Indices(dir, ks), sub);
    && n < |w.rp.Bank(dir)|
    && KeyId(ks, dir, sub) in w.dev.keys
    && w.rp.Bank(dir)[n].key == Reversed(w.dev.keys[KeyId(ks, dir, sub)].key)
    && w.rp.Bank(dir)[n].iv == Reversed(w.dev.keys[KeyId(ks, dir, sub)].iv)
  }

  predicate Active(dev: Device, dir: Direction, sub: SubStream, ks: KeySet) {
    Path(dir, sub) in dev.active && dev.active[Path(dir, sub)] == ks
  }

  predicate Done(s: Session, w: World, st: Step)
    requires Fits(s, w.rp)
  {
    var own := w.rp.streams[s.i];
    match st
    case Query | CheckSecure => true
    case KeyProg(dir, sub) =>
      SlotIndex(own.Indices(dir, s.ks), sub) == s.ids.Id(dir, sub) && Agrees(w, s.i, s.ks, dir, sub)
    case PrimeKeys(dir) => Primed(if dir == RX then own.txCtrl else own.rxCtrl, s.ks)
    case KSetGo(dir, sub) => Active(w.dev, dir, sub, s.ks)
    case Select => own.Selects(s.ks)
    case EnableDevice => w.dev.enabled
    case EnableRootPort => w.rpEnabled && own.Enabled()
  }

  /** The sub-streams of a direction have slots of their own. */
  predicate DistinctIds(ids: SlotIds) {
    forall dir, a, b :: ids.Id(dir, a) == ids.Id(dir, b) ==> a == b
  }

  /** A step that succeeds is done. */
  lemma StepDone(s: Session, w: World, st: Step, r: Reply)
    requires Fits(s, w.rp) && DoStep(s, w, st, r).ok
    ensures Done(s, DoStep(s, w, st, r).w, st)
  {
    var own := w.rp.streams[s.i];
    match st
    case KeyProg(dir, sub) =>
      SlotIndexFields(own.Indices(dir, s.ks), sub, s.ids.Id(dir, sub));
    case PrimeKeys(dir) =>
      PrimeFields(if dir == RX then own.txCtrl else own.rxCtrl, s.ks);
    case Select => SelectFields(own.txCtrl, s.ks);
    case _ =>
  }

  /** Programming one key leaves the key of every other direction or sub-stream in place. */
  lemma ProgramUndoesNoKey(s: Session, w: World, st: Step, r: Reply, e: Step)
    requires Fits(s, w.rp) && DistinctIds(s.ids) && Done(s, w, e) && e != st
    requires st.KeyProg? && e.KeyProg?
    ensures Done(s, DoStep(s, w, st, r).w, e)
  {
    if st.dir == e.dir {
      assert s.ids.Id(st.dir, st.sub) != s.ids.Id(e.dir, e.sub);
      SlotIndexFields(w.rp.streams[s.i].Indices(st.dir, s.ks), st.sub, s.ids.Id(st.dir, st.sub));
    }
  }

  lemma PrimeUndoesNothing(s: Session, w: World, st: Step, r: Reply, e: Step)
    requires Fits(s, w.rp) && Done(s, w, e) && e != st && st.PrimeKeys?
    ensures Done(s, DoStep(s, w, st, r).w, e)
  {
    var own := w.rp.streams[s.i];
    PrimeFields(if st.dir == RX then own.txCtrl else own.rxCtrl, s.ks);
  }

  lemma SelectUndoesNothing(s: Session, w: World, r: Reply, e: Step)
    requires Fits(s, w.rp) && Done(s, w, e) && e != Select
    ensures Done(s, DoStep(s, w, Select, r).w, e)
  {
    SelectFields(w.rp.streams[s.i].txCtrl, s.ks);
  }

  lemma ProgramUndoesNothing(s: Session, w: World, st: Step, r: Reply, e: Step)
    requires Fits(s, w.rp) && DistinctIds(s.ids) && Done(s, w, e) && e != st && st.KeyProg?
    ensures Done(s, DoStep(s, w, st, r).w, e)
  {
    if e.KeyProg? {
      ProgramUndoesNoKey(s, w, st, r, e);
    }
  }

  /** A step, successful or not, undoes no other step. */
  lemma StepUndoesNothing(s: Session, w: World, st: Step, r: Reply, e: Step)
    requires Fits(s, w.rp) && DistinctIds(s.ids) && Done(s, w, e) && e != st
    ensures Done(s, DoStep(s, w, st, r).w, e)
  {
    match st
    case KeyProg(_, _) => ProgramUndoesNothing(s, w, st, r, e);
    case PrimeKeys(_) => PrimeUndoesNothing(s, w, st, r, e);
    case Select => SelectUndoesNothing(s, w, r, e);
    case _ =>
  }

  predicate NoRepeats(steps: seq<Step>) { forall a, b | 0 <= a < b < |steps| :: steps[a] != steps[b] }

  /** As long as nothing failed, everything attempted so far is done, and still done. */
  lemma {:induction false} ExecDone(s: Session, w: World, steps: seq<Step>, replies: seq<Reply>, n: nat)
    requires Fits(s, w.rp) && DistinctIds(s.ids) && NoRepeats(steps)
    requires n <= |steps| && n <= |replies| && Exec(s, w, steps, replies, n).ok
    ensures forall k | 0 <= k < n :: Done(s, Exec(s, w, steps, replies, n).w, steps[k])
  {
    if n > 0 {
      var before := Exec(s, w, steps, replies, n - 1);
      ExecDone(s, w, steps, replies, n - 1);
      forall k | 0 <= k < n ensures Done(s, Exec(s, w, steps, replies, n).w, steps[k]) {
        if k == n - 1 {
          StepDone(s, before.w, steps[k], replies[k]);
        } else {
          StepUndoesNothing(s, before.w, steps[n - 1], replies[n - 1], steps[k]);
        }
      }
    }
  }

  // ------------------------------------------------------------ when a run succeeds

  /** Steps whose outcome is an answer of the device, or what its registers say in the end. */
  predicate Asks(st: Step) { st.Query? || st.KeyProg? || st.KSetGo? || st.CheckSecure? }

  /** Each of the first `n` steps that ask is answered well. */
  predicate Answered(steps: seq<Step>, replies: seq<Reply>, n: nat)
    requires n <= |steps| && n <= |replies|
  {
    forall k | 0 <= k < n && Asks(steps[k]) :: replies[k].ok
  }

  lemma StepSucceedsExactly(s: Session, w: World, st: Step, r: Reply)
    requires Fits(s, w.rp)
    ensures DoStep(s, w, st, r).ok <==> (Asks(st) ==> r.ok)
  {
  }

  /** A run succeeds if and only if the device answers well wherever it is asked. */
  lemma {:induction false} ExecSucceedsExactly(s: Session, w: World, steps: seq<Step>, replies: seq<Reply>, n: nat)
    requires Fits(s, w.rp) && n <= |steps| && n <= |replies|
    ensures Exec(s, w, steps, replies, n).ok <==> Answered(steps, replies, n)
  {
    if n > 0 {
      ExecSucceedsExactly(s, w, steps, replies, n - 1);
      StepSucceedsExactly(s, Exec(s, w, steps, replies, n - 1).w, steps[n - 1], replies[n - 1]);
    }
  }

  /** What a KEY_PROG leaves behind: the device has the fixed or the drawn key if the message took effect, the
      root port has its reversal if the message succeeded, and nothing else in the device changes. */
  lemma KeySent(s: Session, w: World, dir: Direction, sub: SubStream, r: Reply)
    requires Fits(s, w.rp)
    ensures var run := DoStep(s, w, KeyProg(dir, sub), r); var id := KeyId(s.ks, dir, sub);
      && run.ok == r.ok && (!r.ok ==> run.w.rp == w.rp) && (!r.ok && !r.took ==> run.w == w)
      && run.w == w.(rp := run.w.rp, dev := w.dev.(keys := run.w.dev.keys))
      && run.w.dev.keys - {id} == w.dev.keys - {id}
      && (r.ok || r.took ==>
        && id in run.w.dev.keys && run.w.dev.keys[id].iv == [0, 1]
        && forall k | 0 <= k < 8 :: run.w.dev.keys[id].key[k] ==
             if !s.fixedKey then r.key[k] else if dir == RX then 0x2222_2222 else 0x1111_1111)
      && (r.ok ==> var slot := run.w.rp.Bank(dir)[s.ids.Id(dir, sub)];
        slot.iv == [1, 0] && forall k | 0 <= k < 8 :: slot.key[k] == run.w.dev.keys[id].key[7 - k])
  {
  }

  /** What the other steps leave behind in the device and in the enable bit of the root port. */
  lemma OtherStepsExactly(s: Session, w: World, st: Step, r: Reply)
    requires Fits(s, w.rp) && !st.KeyProg?
    ensures var w' := DoStep(s, w, st, r).w;
      && w'.dev.keys == w.dev.keys
      && w'.dev.active == (if st.KSetGo? && (r.ok || r.took) then w.dev.active[Path(st.dir, st.sub) := s.ks]
                           else w.dev.active)
      && (w'.dev.enabled <==> w.dev.enabled || st == EnableDevice)
      && (w'.rpEnabled <==> w.rpEnabled || st == EnableRootPort)
      && (Asks(st) ==> w'.rp == w.rp)
  {
  }

  // ------------------------------------------------------------ a run that goes well

  /** All messages go through, and every key drawn is `key`. */
  function AllWell(n: nat, key: Key): (r: seq<Reply>)
    ensures |r| == n
  {
    seq(n, _ => Reply(true, true, key))
  }

  lemma {:induction false} ExecAllWell(s: Session, w: World, steps: seq<Step>, r: seq<Reply>, key: Key, n: nat)
    requires Fits(s, w.rp) && n <= |steps| && n <= |r| && r[..n] == AllWell(n, key) && !s.fixedKey
    ensures Exec(s, w, steps, r, n).ok
    ensures forall m, dir, sub | 0 <= m < n && steps[m] == KeyProg(dir, sub) ::
      var keys := Exec(s, w, steps, r, n).w.dev.keys;
      KeyId(s.ks, dir, sub) in keys && keys[KeyId(s.ks, dir, sub)].key == key
  {
    if n > 0 {
      assert r[..n][..n - 1] == r[..n - 1] && r[n - 1] == r[..n][n - 1];
      ExecAllWell(s, w, steps, r, key, n - 1);
    }
  }

  // ------------------------------------------------------------ make before break

  /** Everything the specification wants in place before the root port transmits with `ks`:
      six keys on both sides, both directions primed, the device receiving with `ks`. */
  predicate ReadyToSelect(s: Session, w: World) {
    && Fits(s, w.rp)
    && (forall dir, sub :: Done(s, w, KeyProg(dir, sub)))
    && (forall dir :: Done(s, w, PrimeKeys(dir)))
    && (forall sub :: Done(s, w, KSetGo(RX, sub)))
  }

  /** ... and before the stream is enabled. */
  predicate ReadyToEnable(s: Session, w: World) {
    && ReadyToSelect(s, w)
    && Done(s, w, Select)
    && (forall sub :: Done(s, w, KSetGo(TX, sub)))
  }

  /** Where a step stands after the query that only a setup begins with. */
  function Position(st: Step): nat {
    match st
    case KeyProg(dir, sub) => (if dir == RX then 0 else 4) + sub.Index()
    case PrimeKeys(dir) => if dir == RX then 3 else 7
    case KSetGo(dir, sub) => (if dir == RX then 8 else 12) + sub.Index()
    case Select => SELECT_POSITION
    case EnableDevice => 15
    case EnableRootPort => 16
    case CheckSecure => 17
    case Query => 18
  }

  const SELECT_POSITION: nat := 11

  /** At most one query comes first, then the steps stand at their positions, none left out;
      only the last may be the final check of the stream's state. */
  predicate Ordered(steps: seq<Step>, o: nat) {
    && o <= 1
    && forall n | 0 <= n < |steps| ::
        if n < o then steps[n] == Query
        else if steps[n] == CheckSecure then n == |steps| - 1 && 15 <= n - o
        else steps[n] != Query && Position(steps[n]) == n - o
  }

  lemma SamePosition(a: Step, b: Step)
    requires Position(a) == Position(b)
    ensures a == b
  {
  }

  lemma OrderedNoRepeats(steps: seq<Step>, o: nat)
    requires Ordered(steps, o)
    ensures NoRepeats(steps)
  {
  }

  lemma PlaceOf(steps: seq<Step>, o: nat, st: Step)
    requires Ordered(steps, o) && Position(st) < 15 && o + Position(st) < |steps|
    ensures steps[o + Position(st)] == st
  {
    SamePosition(steps[o + Position(st)], st);
  }

  /** Every step of `part` stands at its position, `from` on. */
  predicate Part(part: seq<Step>, from: nat) {
    forall n | 0 <= n < |part| :: Position(part[n]) == from + n && part[n] != CheckSecure && part[n] != Query
  }

  lemma Joined(a: seq<Step>, b: seq<Step>, from: nat)
    requires Part(a, from) && Part(b, from + |a|)
    ensures Part(a + b, from)
  {
  }

  lemma Framed(steps: seq<Step>)
    requires Part(steps, 0)
    ensures Ordered(steps, 0) && Ordered([Query] + steps, 1)
    ensures 15 <= |steps| ==> Ordered(steps + [CheckSecure], 0) && Ordered([Query] + (steps + [CheckSecure]), 1)
  {
  }

  /** Both procedures are ordered, whether or not they stop before the K_SET_GOs. */
  lemma ProcedureSteps(skipKSetGo: bool)
    ensures Ordered(SetupSteps(skipKSetGo), 1) && |SetupSteps(skipKSetGo)| == (if skipKSetGo then 9 else 19)
    ensures Ordered(SwitchSteps(skipKSetGo), 0) && |SwitchSteps(skipKSetGo)| == (if skipKSetGo then 8 else 16)
    ensures !skipKSetGo ==> SetupSteps(skipKSetGo)[18] == CheckSecure == SwitchSteps(skipKSetGo)[15]
  {
    Joined(PROGRAM, GO, 0);
    Joined(PROGRAM + GO, ENABLE, 0);
    Framed(PROGRAM);
    Framed(PROGRAM + GO);
    Framed(PROGRAM + GO + ENABLE);
  }

  /** Before the step at `n` everything with a smaller position is done. */
  lemma EarlierDone(s: Session, w: World, steps: seq<Step>, o: nat, replies: seq<Reply>, n: nat, st: Step)
    requires Fits(s, w.rp) && DistinctIds(s.ids) && Ordered(steps, o)
    requires n < |steps| && n <= |replies| && Exec(s, w, steps, replies, n).ok
    requires Position(steps[n]) < 17 && Position(st) < Position(steps[n]) && Position(st) < 15
    ensures Done(s, Exec(s, w, steps, replies, n).w, st)
  {
    OrderedNoRepeats(steps, o);
    ExecDone(s, w, steps, replies, n);
    PlaceOf(steps, o, st);
  }

  /** All keys are in place when the selection or the enabling of the root port comes. */
  lemma KeysDone(s: Session, w: World, steps: seq<Step>, o: nat, replies: seq<Reply>, n: nat)
    requires Fits(s, w.rp) && DistinctIds(s.ids) && Ordered(steps, o)
    requires n < |steps| && n <= |replies| && Exec(s, w, steps, replies, n).ok
    requires steps[n].Select? || steps[n].EnableRootPort?
    ensures forall dir, sub :: Done(s, Exec(s, w, steps, replies, n).w, KeyProg(dir, sub))
    ensures steps[n].EnableRootPort? ==> Done(s, Exec(s, w, steps, replies, n).w, Select)
  {
    forall dir, sub ensures Done(s, Exec(s, w, steps, replies, n).w, KeyProg(dir, sub)) {
      EarlierDone(s, w, steps, o, replies, n, KeyProg(dir, sub));
    }
    if steps[n].EnableRootPort? {
      EarlierDone(s, w, steps, o, replies, n, Select);
    }
  }

  predicate SameEnables(i: nat, a: World, b: World)
    requires i < |a.rp.streams| && i < |b.rp.streams|
  {
    && a.rpEnabled == b.rpEnabled && a.dev.enabled == b.dev.enabled
    && a.rp.streams[i].Enabled() == b.rp.streams[i].Enabled()
  }

  /** Make before break, on every run however it goes on: the root port's Tx selection changes
      at step `n` only when everything is in place for the new key set; the device is told to
      transmit with it only after that; and nothing is enabled before all six K_SET_GOs. */
  lemma MakeBeforeBreak(s: Session, w: World, steps: seq<Step>, o: nat, replies: seq<Reply>, n: nat)
    requires Fits(s, w.rp) && DistinctIds(s.ids) && Ordered(steps, o)
    requires n < |steps| && n < |replies|
    ensures var before := Exec(s, w, steps, replies, n); var after := Exec(s, w, steps, replies, n + 1);
      var st := steps[n];
      && (after.w.rp.streams[s.i].txCtrl % 4 != before.w.rp.streams[s.i].txCtrl % 4 ==>
            ReadyToSelect(s, before.w) && after.w.rp.streams[s.i].Selects(s.ks))
      && (before.ok && st.KSetGo? && st.dir == TX ==> ReadyToSelect(s, before.w) && Done(s, before.w, Select))
      && (before.ok && (st.EnableDevice? || st.EnableRootPort?) ==> ReadyToEnable(s, before.w))
      && (!SameEnables(s.i, before.w, after.w) ==> ReadyToEnable(s, before.w))
  {
    var before := Exec(s, w, steps, replies, n);
    var st := steps[n];
    if before.ok {
      if st.KeyProg? || st.PrimeKeys? {
        OtherFieldsKept(s, before.w, st, replies[n]);
      } else if st.Select? || st.KSetGo? || st.EnableDevice? || st.EnableRootPort? {
        var p := if Position(st) < 15 then Position(st) else 15;
        forall e: Step | Position(e) < p ensures Done(s, before.w, e) {
          EarlierDone(s, w, steps, o, replies, n, e);
        }
        if SELECT_POSITION <= p {
          ByPosition(s, before.w, p);
        }
        SelectFields(before.w.rp.streams[s.i].txCtrl, s.ks);
      }
    }
  }

  lemma ByPosition(s: Session, w: World, p: nat)
    requires Fits(s, w.rp) && 11 <= p <= 15
    requires forall st: Step | Position(st) < p :: Done(s, w, st)
    ensures ReadyToSelect(s, w)
    ensures 12 <= p ==> Done(s, w, Select)
    ensures p == 15 ==> ReadyToEnable(s, w)
  {
  }

  lemma OtherFieldsKept(s: Session, w: World, st: Step, r: Reply)
    requires Fits(s, w.rp) && (st.KeyProg? || st.PrimeKeys?)
    ensures var w' := DoStep(s, w, st, r).w;
      && w'.rp.streams[s.i].txCtrl % 4 == w.rp.streams[s.i].txCtrl % 4
      && SameEnables(s.i, w, w')
  {
    if st.PrimeKeys? {
      PrimeFields(w.rp.streams[s.i].txCtrl, s.ks);
    }
  }
}
