/** Setting up a stream on the block and the triple that were set aside when its port was opened.  The
    library resets the block and goes ahead without looking again. */
module Opening {
  import opened Words
  import opened Kcbar
  import opened SlotAlloc
  import opened KeyProtocol
  import opened StreamSafety
  import opened KeyAgreement
  import opened Fleet
  import opened FailedRefresh
  import IdeEcap

  /** What init_root_port sets aside: the lowest disabled stream and the lowest free triple. */
  predicate SetAside(rp: RootPort, i: nat, t: nat) { IdeEcap.LowestDisabled(rp, i) && HandsOut(rp, t) }

  /** The world after the stream's registers were reset. */
  function Reset(w: World, i: nat, streamId: u8): (r: World)
    requires i < |w.rp.streams|
    ensures |r.rp.streams| == |w.rp.streams| && r.rp.tx == w.rp.tx && r.rp.rx == w.rp.rx
  {
    w.(rp := InitStream(w.rp, i, streamId))
  }

  /** A session on the triple set aside. */
  predicate OnTriple(s: Session, t: nat, rp: RootPort) {
    s.i < |rp.streams| && t < |rp.tx| / SUB_STREAMS && t < 0x1000 && s.ids == Triple(t) && Fits(s, rp)
  }

  /** The root port after the reset and the first `n` steps of the setup. */
  function PortAt(s: Session, w: World, streamId: u8, replies: seq<Reply>, n: nat): RootPort
    requires Fits(s, w.rp) && n <= |SetupSteps(false)| && n <= |replies|
  {
    Exec(s, Reset(w, s.i, streamId), SetupSteps(false), replies, n).w.rp
  }

  predicate Complete(s: Session, w: World, streamId: u8, replies: seq<Reply>) {
    && Fits(s, w.rp) && |SetupSteps(false)| <= |replies|
    && Exec(s, Reset(w, s.i, streamId), SetupSteps(false), replies, |SetupSteps(false)|).ok
  }

  /** At the given point triples are disjoint, and all streams that were enabled before are as they were. */
  predicate Unharmed(rp: RootPort, rp': RootPort)
    requires GoodCounts(rp)
  {
    Disjoint(rp') && forall j | 0 <= j < |rp.streams| && rp.streams[j].Enabled() :: KeepsLive(rp, rp', j)
  }

  /** What a setup may count on: nobody uses the block, and nobody else the triple. */
  predicate StillSetAside(rp: RootPort, i: nat, t: nat)
    requires i < |rp.streams|
  {
    !rp.streams[i].Enabled() && FreeForOthers(rp, i, t)
  }

  lemma ResetStarts(s: Session, t: nat, w: World, streamId: u8)
    requires Disjoint(w.rp) && OnTriple(s, t, w.rp) && StillSetAside(w.rp, s.i, t)
    ensures Start(s, t, Reset(w, s.i, streamId).rp) && OthersKept(w.rp, Reset(w, s.i, streamId).rp, s.i)
  {
    var rp := Reset(w, s.i, streamId).rp;
    PlacedKeepsDisjoint(w.rp, rp, s.i, t);
    DisjointIsScannable(rp);
    forall j | 0 <= j < |rp.streams| ensures !UsedBy(rp.streams[j], t) {
      if rp.streams[j].Enabled() {
        assert UsedBy(rp.streams[j], TripleOf(rp.streams[j]));
      }
    }
  }

  /** If block and triple are still there, nothing is harmed at any point, complete or not. */
  lemma SafeIfStillSetAside(s: Session, t: nat, w: World, streamId: u8, replies: seq<Reply>, n: nat)
    requires Disjoint(w.rp) && OnTriple(s, t, w.rp) && StillSetAside(w.rp, s.i, t)
    requires n <= |SetupSteps(false)| && n <= |replies|
    ensures Unharmed(w.rp, PortAt(s, w, streamId, replies, n))
  {
    var w0, steps := Reset(w, s.i, streamId), SetupSteps(false);
    ResetStarts(s, t, w, streamId);
    GuardedFits(s, t, w0.rp);
    ProcedureSteps(false);
    ExecBetween(s, t, w0, steps, 1, replies, n);
    forall j | 0 <= j < |w.rp.streams| && w.rp.streams[j].Enabled()
      ensures KeepsLive(w.rp, PortAt(s, w, streamId, replies, n), j)
    {
      ExecLive(s, t, w0, steps, 1, replies, n, j);
      LiveKept(w.rp, w0.rp, j);
      KeepsLiveTransitive(w.rp, w0.rp, PortAt(s, w, streamId, replies, n), j);
    }
  }

  /** A complete setup on a triple that another stream uses makes the triples collide. */
  lemma TakenTripleCollides(s: Session, t: nat, w: World, streamId: u8, replies: seq<Reply>)
    requires Disjoint(w.rp) && OnTriple(s, t, w.rp) && Complete(s, w, streamId, replies) && !FreeForOthers(w.rp, s.i, t)
    ensures !Disjoint(PortAt(s, w, streamId, replies, |SetupSteps(false)|))
  {
    var w0 := Reset(w, s.i, streamId);
    PlacedKeepsDisjoint(w.rp, w0.rp, s.i, |w.rp.tx|);
    var j :| 0 <= j < |w.rp.streams| && j != s.i && w.rp.streams[j].Enabled() && TripleOf(w.rp.streams[j]) == t;
    assert w0.rp.streams[j] == w.rp.streams[j];
    SetupSafeExactlyWhenFree(s, t, w0, replies);
  }

  /** For any block and triple that were set aside, whenever that was: the reset and a complete setup harm no
      stream at any point and keep the triples disjoint if and only if the block was still disabled before
      the reset and no other stream used the triple. */
  lemma SafeExactlyWhenStillSetAside(s: Session, t: nat, w: World, streamId: u8, replies: seq<Reply>)
    requires Disjoint(w.rp) && OnTriple(s, t, w.rp) && Complete(s, w, streamId, replies)
    ensures (forall n: nat | n <= |SetupSteps(false)| :: Unharmed(w.rp, PortAt(s, w, streamId, replies, n))) <==>
      StillSetAside(w.rp, s.i, t)
  {
    if StillSetAside(w.rp, s.i, t) {
      forall n: nat | n <= |SetupSteps(false)| ensures Unharmed(w.rp, PortAt(s, w, streamId, replies, n)) {
        SafeIfStillSetAside(s, t, w, streamId, replies, n);
      }
    } else if w.rp.streams[s.i].Enabled() {
      var rp := PortAt(s, w, streamId, replies, 0);
      assert !rp.streams[s.i].Enabled();
      assert !KeepsLive(w.rp, rp, s.i);
      assert !Unharmed(w.rp, rp);
    } else {
      TakenTripleCollides(s, t, w, streamId, replies);
      assert !Unharmed(w.rp, PortAt(s, w, streamId, replies, |SetupSteps(false)|));
    }
  }

  // ------------------------------------------------------------ setups that harm

  /** A setup with stream id 0 on key set 0 in which all messages go through. */
  function WellSetup(i: nat, t: nat, w: World, key: Key): (run: KeyProtocol.Run)
    requires i < |w.rp.streams| && t < 0x100 && SUB_STREAMS * t + SUB_STREAMS <= |w.rp.tx| <= |w.rp.rx|
    ensures |run.w.rp.streams| == |w.rp.streams|
  {
    assert Fits(WellSession(i, t), w.rp);
    ExecAll(WellSession(i, t), Reset(w, i, 0), SetupSteps(false), AllWell(|SetupSteps(false)|, key))
  }

  function WellSession(i: nat, t: nat): (s: Session)
    requires t < 0x100
    ensures DistinctIds(s.ids)
  {
    Session(i, KS0, Triple(t), false)
  }

  /** It succeeds, and the device has the key on all paths. */
  lemma WellSetupSucceeds(i: nat, t: nat, w: World, key: Key)
    requires i < |w.rp.streams| && t < 0x100 && SUB_STREAMS * t + SUB_STREAMS <= |w.rp.tx| <= |w.rp.rx|
    ensures var run := WellSetup(i, t, w, key);
      run.ok && forall dir, sub :: var id := KeyId(KS0, dir, sub); id in run.w.dev.keys && run.w.dev.keys[id].key == key
    ensures Complete(WellSession(i, t), w, 0, AllWell(|SetupSteps(false)|, key))
  {
    var s, steps, r := WellSession(i, t), SetupSteps(false), AllWell(|SetupSteps(false)|, key);
    assert Fits(s, w.rp) && r[..|steps|] == r;
    ProcedureSteps(false);
    ExecAllWell(s, Reset(w, i, 0), steps, r, key, |steps|);
    forall dir, sub
      ensures var id := KeyId(KS0, dir, sub); var dev := WellSetup(i, t, w, key).w.dev;
        id in dev.keys && dev.keys[id].key == key
    {
      PlaceOf(steps, 1, KeyProg(dir, sub));
    }
  }

  /** If only the block itself was in use, the new device agrees with the root port. */
  lemma WellSetupAgrees(i: nat, t: nat, w: World, key: Key)
    requires Disjoint(w.rp) && i < |w.rp.streams| && t < |w.rp.tx| / SUB_STREAMS && t < 0x100 &&
      FreeForOthers(w.rp, i, t)
    ensures Agreement(WellSetup(i, t, w, key).w, i, KS0)
  {
    var w0 := Reset(w, i, 0);
    WellSetupSucceeds(i, t, w, key);
    PlacedKeepsDisjoint(w.rp, w0.rp, i, t);
    assert StillSetAside(w0.rp, i, t);
    assert InitStream(w0.rp, i, 0) == w0.rp;
    ResetStarts(WellSession(i, t), t, w0, 0);
    SetupAgrees(WellSession(i, t), t, w0, AllWell(|SetupSteps(false)|, key));
  }

  lemma ReversedDetermines(a: Key, b: Key)
    requires Reversed(a) == Reversed(b)
    ensures a == b
  {
    forall k | 0 <= k < |a| ensures a[k] == b[k] {
      assert Reversed(a)[|a| - 1 - k] == a[k] && Reversed(b)[|b| - 1 - k] == b[k];
    }
  }

  /** Two devices with different keys cannot both agree with one stream. */
  lemma OneDeviceOnly(w: World, w': World, i: nat, key: Key, key': Key)
    requires Agreement(w, i, KS0) && Agreement(w', i, KS0) && key != key'
    requires KeyId(KS0, TX, PR) in w.dev.keys && w.dev.keys[KeyId(KS0, TX, PR)].key == key
    requires KeyId(KS0, TX, PR) in w'.dev.keys && w'.dev.keys[KeyId(KS0, TX, PR)].key == key'
    ensures !InUseAgrees(w.(rp := w'.rp), i)
  {
    assert Active(w.dev, TX, PR, KS0) by { assert Agrees(w, i, KS0, TX, PR) && Active(w.dev, TX, PR, KS0); }
    assert Agrees(w', i, KS0, TX, PR);
    if Agrees(w.(rp := w'.rp), i, KS0, TX, PR) {
      ReversedDetermines(key, key');
    }
    assert !PathsInUse(w.(rp := w'.rp), i, PR);
  }

  lemma NothingEnabledIsDisjoint(rp: RootPort)
    requires GoodCounts(rp) && forall k | 0 <= k < |rp.streams| :: !rp.streams[k].Enabled()
    ensures Disjoint(rp)
  {
  }

  /** On any port without enabled streams two openings are both given stream 0 and triple 0.  Both setups
      succeed; the second resets the stream of the first, which no longer agrees with its device, although
      the triple was free for the second. */
  lemma OpenedTwice(rp: RootPort, dev: Device, other: Device, key: Key, key': Key)
    requires GoodCounts(rp) && 0 < |rp.streams| && SUB_STREAMS <= |rp.tx| <= MAP_BITS * SUB_STREAMS && key != key'
    requires forall k | 0 <= k < |rp.streams| :: !rp.streams[k].Enabled()
    ensures SetAside(rp, 0, 0)
    ensures var first := WellSetup(0, 0, World(rp, false, dev), key);
      && first.ok && Agreement(first.w, 0, KS0) && FreeForOthers(first.w.rp, 0, 0)
      && |first.w.rp.tx| == |rp.tx| && |first.w.rp.rx| == |rp.rx|
      && var second := WellSetup(0, 0, World(first.w.rp, false, other), key');
         second.ok && Disjoint(second.w.rp) && !InUseAgrees(first.w.(rp := second.w.rp), 0)
  {
    NothingEnabledIsDisjoint(rp);
    var w := World(rp, false, dev);
    WellSetupSucceeds(0, 0, w, key);
    WellSetupAgrees(0, 0, w, key);
    var first := WellSetup(0, 0, w, key);
    var steps := SetupSteps(false);
    ExecOthers(WellSession(0, 0), Reset(w, 0, 0), steps, AllWell(|steps|, key), |steps|);
    var w' := World(first.w.rp, false, other);
    WellSetupSucceeds(0, 0, w', key');
    WellSetupAgrees(0, 0, w', key');
    OneDeviceOnly(first.w, WellSetup(0, 0, w', key').w, 0, key, key');
  }

  /** A refresh in which all messages go through, with the slots the allocator hands out. */
  function GoodRefresh(j: nat, key: Key): Op { Refresh(j, false, AllWell(|SwitchSteps(false)|, key)) }

  /** The allocator's triple, when it is known. */
  lemma LowestIs(rp: RootPort, t: nat)
    requires HandsOut(rp, t)
    ensures Allocates(rp) && LowestFree(rp, 0) == t
  {
    var r := LowestFree(rp, 0);
  }

  /** A refresh that goes well moves the stream to the triple handed out. */
  lemma GoodRefreshMoves(f: Fleet, j: nat, key: Key, t: nat)
    requires Consistent(f) && Applicable(f, GoodRefresh(j, key)) && HandsOut(f.rp, t)
    ensures var f' := Apply(f, GoodRefresh(j, key));
      && Consistent(f') && OthersKept(f.rp, f'.rp, j) && |f'.rp.tx| == |f.rp.tx| && |f'.peers| == |f.peers|
      && f'.peers[j].status == Running(f.peers[j].status.ks.Other())
      && f'.rp.streams[j].Enabled() && TripleOf(f'.rp.streams[j]) == t
  {
    var op := GoodRefresh(j, key);
    LowestIs(f.rp, t);
    SessionFits(f, op);
    ApplyConsistent(f, op);
    OpMove(f, op);
    var s, w, steps := SessionOf(f, op), f.WorldOf(j), SwitchSteps(false);
    GuardedFits(s, t, w.rp);
    assert op.replies[..|steps|] == op.replies;
    ExecAllWell(s, w, steps, op.replies, key, |steps|);
    KeysSelected(s, w, op.replies, |steps|);
    ExecOthers(s, w, steps, op.replies, |steps|);
    ProgrammedTriple(s, t, ExecAll(s, w, steps, op.replies).w);
    assert StreamOk(Apply(f, op), j);
  }

  /** After the first opening stream 1 and triple 1 are what is set aside next. */
  lemma AfterFirstOpening(f0: Fleet, key: Key)
    requires AllIdle(f0) && 2 <= |f0.peers| && 2 * SUB_STREAMS <= |f0.rp.tx| <= MAP_BITS * SUB_STREAMS
    ensures Consistent(f0) && SetAside(f0.rp, 0, 0)
    ensures var f1 := Apply(f0, GoodOpen(0, 0, key));
      && Consistent(f1) && SetAside(f1.rp, 1, 1) && f1.peers[0].status == Running(KS0) && |f1.peers| == |f0.peers|
      && |f1.rp.streams| == |f0.rp.streams| && |f1.rp.tx| == |f0.rp.tx|
      && forall k | 0 < k < |f1.rp.streams| :: !f1.rp.streams[k].Enabled()
  {
    forall j | 0 <= j < |f0.peers| ensures StreamOk(f0, j) {
    }
    var op, f1 := GoodOpen(0, 0, key), Apply(f0, GoodOpen(0, 0, key));
    OpenTakes(f0, 0, 0, key);
    OpMove(f0, op);
    ApplyConsistent(f0, op);
    assert StreamOk(f1, 0);
    SessionFits(f0, op);
    var s, w := SessionOf(f0, op), StartWorld(f0, op);
    GuardedFits(s, 0, w.rp);
    SetupTakes(s, 0, w, key);
    SetupPlaces(s, 0, w, op.replies);
    DisjointIsScannable(f1.rp);
    assert UsedBy(f1.rp.streams[0], 0);
    assert FreeTriple(f1.rp, 1);
  }

  /** From an idle port with two streams and two triples: stream 0 runs on triple 0, a port is opened and given
      stream 1 and triple 1, stream 0 refreshes its keys and moves to triple 1, and then stream 1 is set
      up.  It succeeds, and two enabled streams share triple 1. */
  lemma RefreshTakesTriple(f0: Fleet, key: Key)
    requires AllIdle(f0) && 2 <= |f0.peers| && 2 * SUB_STREAMS <= |f0.rp.tx| <= MAP_BITS * SUB_STREAMS
    ensures Consistent(f0) && SetAside(f0.rp, 0, 0)
    ensures var f1 := Apply(f0, GoodOpen(0, 0, key));
      && Consistent(f1) && SetAside(f1.rp, 1, 1) && |f1.peers| == |f0.peers|
      && var f2 := Apply(f1, GoodRefresh(0, key));
         && |f2.peers| == |f0.peers| == |f2.rp.streams| && f2.peers[0].status == Running(KS1)
         && !f2.rp.streams[1].Enabled() && !FreeForOthers(f2.rp, 1, 1) && |f2.rp.tx| == |f0.rp.tx| <= |f2.rp.rx|
         && WellSetup(1, 1, f2.WorldOf(1), key).ok && !Disjoint(WellSetup(1, 1, f2.WorldOf(1), key).w.rp)
  {
    AfterFirstOpening(f0, key);
    var f1 := Apply(f0, GoodOpen(0, 0, key));
    GoodRefreshMoves(f1, 0, key, 1);
    var f2 := Apply(f1, GoodRefresh(0, key));
    assert !FreeForOthers(f2.rp, 1, 1);
    WellSetupSucceeds(1, 1, f2.WorldOf(1), key);
    TakenTripleCollides(WellSession(1, 1), 1, f2.WorldOf(1), 0, AllWell(|SetupSteps(false)|, key));
  }
}
