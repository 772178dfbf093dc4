/** Any number of streams on one root port, each opened, refreshed and closed in any order
    and with any outcome: what holds in every state that can be reached. */
module Fleet {
  import opened Words
  import opened Kcbar
  import opened SlotAlloc
  import opened KeyProtocol
  import opened StreamSafety
  import opened KeyAgreement

  /** A stream is idle, runs on a key set, or has failed (its test is over but for the teardown). */
  datatype Status = Idle | Running(ks: KeySet) | Failed

  /** The far end of one stream and the enable bit of the stream in the root port's capability. */
  datatype Peer = Peer(dev: Device, rpEnabled: bool, status: Status)

  datatype Fleet = Fleet(rp: RootPort, peers: seq<Peer>) {
    function WorldOf(j: nat): World
      requires j < |peers|
    {
      World(rp, peers[j].rpEnabled, peers[j].dev)
    }

    function With(j: nat, w: World, status: Status): Fleet
      requires j < |peers|
    {
      Fleet(w.rp, peers[j := Peer(w.dev, w.rpEnabled, status)])
    }
  }

  /** One operation of the test program on stream `j`.  An opening uses the triple `t` that was set
      aside for the stream earlier, whichever it is. */
  datatype Op =
    | Open(j: nat, t: nat, streamId: u8, ks: KeySet, fixedKey: bool, replies: seq<Reply>)
    | Refresh(j: nat, fixedKey: bool, replies: seq<Reply>)
    | Close(j: nat)

  /** The lowest free triple from `t` on, if any. */
  function LowestFree(rp: RootPort, t: nat): (r: nat)
    ensures t <= r
    ensures r < |rp.tx| / SUB_STREAMS ==> FreeTriple(rp, r)
    ensures forall u | t <= u < r :: Used(rp, u)
    decreases |rp.tx| / SUB_STREAMS - t
  {
    if t < |rp.tx| / SUB_STREAMS && Used(rp, t) then LowestFree(rp, t + 1) else t
  }

  /** The allocator's verdict: it serves at most eight triples. */
  predicate Allocates(rp: RootPort) { |rp.tx| <= MAP_BITS * SUB_STREAMS && LowestFree(rp, 0) < |rp.tx| / SUB_STREAMS }

  predicate Applicable(f: Fleet, op: Op) {
    && op.j < |f.rp.streams| && |f.peers| == |f.rp.streams|
    && (op.Open? ==> !f.rp.streams[op.j].Enabled() && f.peers[op.j].status.Idle? && FreeTriple(f.rp, op.t)
                      && |op.replies| == |SetupSteps(false)|)
    && (op.Refresh? ==> f.peers[op.j].status.Running? && |op.replies| == |SwitchSteps(false)|)
  }

  /** A refresh asks the allocator for its triple and may be turned away. */
  predicate HasSlots(f: Fleet, op: Op) { op.Refresh? ==> Allocates(f.rp) }

  function TripleFor(f: Fleet, op: Op): nat
    requires !op.Close?
  {
    if op.Open? then op.t else LowestFree(f.rp, 0)
  }

  lemma TripleForIsFree(f: Fleet, op: Op)
    requires GoodCounts(f.rp) && Applicable(f, op) && HasSlots(f, op) && !op.Close?
    ensures FreeTriple(f.rp, TripleFor(f, op)) && TripleFor(f, op) < 0x1000
  {
  }

  /** The session an operation runs. */
  function SessionOf(f: Fleet, op: Op): Session
    requires GoodCounts(f.rp) && Applicable(f, op) && HasSlots(f, op) && !op.Close?
  {
    var ks := if op.Open? then op.ks else f.peers[op.j].status.ks.Other();
    TripleForIsFree(f, op);
    Session(op.j, ks, Triple(TripleFor(f, op)), op.fixedKey)
  }

  /** The world an operation starts from: opening first clears the stream's registers. */
  function StartWorld(f: Fleet, op: Op): World
    requires Applicable(f, op)
  {
    var w := f.WorldOf(op.j);
    if op.Open? then w.(rp := InitStream(w.rp, op.j, op.streamId)) else w
  }

  function StepsOf(op: Op): seq<Step> { if op.Open? then SetupSteps(false) else SwitchSteps(false) }

  /** What the root port transmits with is what the device holds for reception. */
  predicate TransmitAgrees(w: World, i: nat) {
    i < |w.rp.streams| && forall sub :: Agrees(w, i, Selected(w.rp.streams[i]), RX, sub)
  }

  /** What the device transmits with, on the sub-streams where that is the selected key set, is what
      the root port holds for reception. */
  predicate ReceiveAgrees(w: World, i: nat) {
    i < |w.rp.streams| && forall sub | Settled(w, i, sub) :: Agrees(w, i, Selected(w.rp.streams[i]), TX, sub)
  }

  /** The device transmits with the key set that the root port has selected. */
  predicate Settled(w: World, i: nat, sub: SubStream)
    requires i < |w.rp.streams|
  {
    Active(w.dev, TX, sub, Selected(w.rp.streams[i]))
  }

  /** Triples are disjoint; a running stream agrees on all six paths, a failed one that is still enabled
      on all that use the selected key set. */
  predicate Consistent(f: Fleet) {
    && |f.peers| == |f.rp.streams| && Disjoint(f.rp)
    && forall j | 0 <= j < |f.peers| :: StreamOk(f, j)
  }

  predicate StreamOk(f: Fleet, j: nat)
    requires |f.peers| == |f.rp.streams| && j < |f.peers|
  {
    match f.peers[j].status
    case Idle => !f.rp.streams[j].Enabled()
    case Running(ks) => Agreement(f.WorldOf(j), j, ks)
    case Failed => f.rp.streams[j].Enabled() ==> TransmitAgrees(f.WorldOf(j), j) && ReceiveAgrees(f.WorldOf(j), j)
  }

  function Apply(f: Fleet, op: Op): (r: Fleet)
    requires Consistent(f)
    ensures |r.peers| == |f.peers|
  {
    if !Applicable(f, op) then f
    else if op.Close? then
      var w := f.WorldOf(op.j);
      f.With(op.j, World(SetEnable(w.rp, op.j, false), false, w.dev.(enabled := false)), Idle)
    else if !HasSlots(f, op) then f.With(op.j, f.WorldOf(op.j), Failed)
    else
      SessionFits(f, op);
      var s := SessionOf(f, op);
      var run := ExecAll(s, StartWorld(f, op), StepsOf(op), op.replies);
      f.With(op.j, run.w, if run.ok then Running(s.ks) else Failed)
  }

  lemma SessionFits(f: Fleet, op: Op)
    requires Consistent(f) && Applicable(f, op) && !op.Close? && HasSlots(f, op)
    ensures var s := SessionOf(f, op); var w := StartWorld(f, op);
      Fits(s, w.rp) && Start(s, TripleFor(f, op), w.rp) && OthersKept(f.rp, w.rp, op.j)
  {
    var s, w, t := SessionOf(f, op), StartWorld(f, op), TripleFor(f, op);
    TripleForIsFree(f, op);
    assert StreamOk(f, op.j);
    if op.Open? {
      assert OthersKept(f.rp, w.rp, op.j) && !w.rp.streams[op.j].Enabled();
      DisjointIsScannable(f.rp);
      PlacedKeepsDisjoint(f.rp, w.rp, op.j, t);
    }
    forall j | 0 <= j < |w.rp.streams| ensures !UsedBy(w.rp.streams[j], t) {
      assert !UsedBy(f.rp.streams[j], t);
    }
    assert Guarded(s, t, w.rp);
    GuardedFits(s, t, w.rp);
  }

  // ------------------------------------------------------------ the other streams

  lemma KeepsLiveTransitive(a: RootPort, b: RootPort, c: RootPort, j: nat)
    requires GoodCounts(a) && j < |a.streams| && a.streams[j].Enabled() && WellPlaced(a, a.streams[j])
    requires KeepsLive(a, b, j)
    requires KeepsLive(b, c, j)
    ensures KeepsLive(a, c, j)
  {
  }

  /** A whole run of one stream keeps the live keys of every other. */
  lemma {:induction false} ExecLive(s: Session, t: nat, w0: World, steps: seq<Step>, o: nat, replies: seq<Reply>,
                                    n: nat, j: nat)
    requires Start(s, t, w0.rp) && Fits(s, w0.rp) && DistinctIds(s.ids) && Ordered(steps, o)
    requires n <= |steps| && n <= |replies|
    requires j < |w0.rp.streams| && j != s.i && w0.rp.streams[j].Enabled()
    ensures KeepsLive(w0.rp, Exec(s, w0, steps, replies, n).w.rp, j)
  {
    if n > 0 {
      ExecLive(s, t, w0, steps, o, replies, n - 1, j);
      ExecLiveNext(s, t, w0, steps, o, replies, n - 1, j);
    }
  }

  lemma ExecLiveNext(s: Session, t: nat, w0: World, steps: seq<Step>, o: nat, replies: seq<Reply>, n: nat, j: nat)
    requires Start(s, t, w0.rp) && Fits(s, w0.rp) && Ordered(steps, o) && n < |steps| && n < |replies|
    requires j < |w0.rp.streams| && j != s.i && w0.rp.streams[j].Enabled()
    requires KeepsLive(w0.rp, Exec(s, w0, steps, replies, n).w.rp, j)
    ensures KeepsLive(w0.rp, Exec(s, w0, steps, replies, n + 1).w.rp, j)
  {
    RunSafe(s, t, w0, steps, o, replies, n);
    KeepsLiveTransitive(w0.rp, Exec(s, w0, steps, replies, n).w.rp, Exec(s, w0, steps, replies, n + 1).w.rp, j);
  }

  /** A stream whose registers and live keys stay keeps its agreement on the selected key set. */
  lemma SelectedAgreesKept(w: World, rp': RootPort, k: nat, dir: Direction, sub: SubStream)
    requires GoodCounts(w.rp) && k < |w.rp.streams| == |rp'.streams| && rp'.streams[k] == w.rp.streams[k]
    requires w.rp.streams[k].Enabled() && WellPlaced(w.rp, w.rp.streams[k]) && KeepsLive(w.rp, rp', k)
    requires |rp'.tx| == |w.rp.tx| && |rp'.rx| == |w.rp.rx|
    requires Agrees(w, k, Selected(w.rp.streams[k]), dir, sub)
    ensures Agrees(w.(rp := rp'), k, Selected(w.rp.streams[k]), dir, sub)
  {
    var st := w.rp.streams[k];
    var n := SUB_STREAMS * TripleOf(st);
    assert SlotIndex(st.Indices(dir, Selected(st)), sub) == n + sub.Index();
    assert LiveOf(rp', k).slots == LiveOf(w.rp, k).slots;
    assert rp'.tx[n + sub.Index()] == LiveOf(rp', k).slots[sub.Index()];
    assert w.rp.tx[n + sub.Index()] == LiveOf(w.rp, k).slots[sub.Index()];
    assert rp'.rx[n + sub.Index()] == LiveOf(rp', k).slots[SUB_STREAMS + sub.Index()];
    assert w.rp.rx[n + sub.Index()] == LiveOf(w.rp, k).slots[SUB_STREAMS + sub.Index()];
    AgreesKept(w, w.(rp := rp'), k, Selected(st), dir, sub);
  }

  /** The root port after an operation on `i`: triples disjoint, other streams as before. */
  predicate GoodMove(rp: RootPort, rp': RootPort, i: nat) {
    && Disjoint(rp) && Disjoint(rp') && OthersKept(rp, rp', i)
    && |rp'.tx| == |rp.tx| && |rp'.rx| == |rp.rx|
    && forall j | 0 <= j < |rp.streams| && j != i && rp.streams[j].Enabled() :: KeepsLive(rp, rp', j)
  }

  lemma OtherStreamOk(f: Fleet, f': Fleet, i: nat, k: nat)
    requires Consistent(f) && GoodMove(f.rp, f'.rp, i) && |f'.peers| == |f.peers|
    requires k < |f.peers| && k != i && f'.peers[k] == f.peers[k]
    ensures StreamOk(f', k)
  {
    assert StreamOk(f, k);
    var w := f.WorldOf(k);
    if f.rp.streams[k].Enabled() {
      forall dir, sub | Agrees(w, k, Selected(f.rp.streams[k]), dir, sub)
        ensures Agrees(f'.WorldOf(k), k, Selected(f.rp.streams[k]), dir, sub)
      {
        SelectedAgreesKept(w, f'.rp, k, dir, sub);
      }
      match f.peers[k].status
      case Running(ks) =>
        assert Selected(f.rp.streams[k]) == ks;
        forall dir, sub ensures Agrees(f'.WorldOf(k), k, ks, dir, sub) && Active(f'.peers[k].dev, dir, sub, ks) {
          assert Agrees(w, k, ks, dir, sub) && Active(w.dev, dir, sub, ks);
        }
      case Failed =>
        assert TransmitAgrees(w, k) && ReceiveAgrees(w, k);
      case _ =>
    }
  }

  lemma SessionMove(s: Session, t: nat, w0: World, steps: seq<Step>, o: nat, replies: seq<Reply>)
    requires Start(s, t, w0.rp) && Fits(s, w0.rp) && Ordered(steps, o) && |steps| == |replies|
    ensures GoodMove(w0.rp, ExecAll(s, w0, steps, replies).w.rp, s.i)
  {
    GuardedFits(s, t, w0.rp);
    ExecBetween(s, t, w0, steps, o, replies, |steps|);
    ExecOthers(s, w0, steps, replies, |steps|);
    forall j | 0 <= j < |w0.rp.streams| && j != s.i && w0.rp.streams[j].Enabled()
      ensures KeepsLive(w0.rp, ExecAll(s, w0, steps, replies).w.rp, j)
    {
      ExecLive(s, t, w0, steps, o, replies, |steps|, j);
    }
  }

  lemma {:induction false} NotYetEnabled(s: Session, w0: World, replies: seq<Reply>, n: nat)
    requires Fits(s, w0.rp) && !w0.rp.streams[s.i].Enabled() && |replies| == |SetupSteps(false)| && n <= 17
    ensures !Exec(s, w0, SetupSteps(false), replies, n).w.rp.streams[s.i].Enabled()
  {
    if n > 0 {
      NotYetEnabled(s, w0, replies, n - 1);
      ProcedureSteps(false);
      var run := Exec(s, w0, SetupSteps(false), replies, n - 1);
      StepFrame(s, run.w, SetupSteps(false)[n - 1], replies[n - 1]);
    }
  }

  /** A setup that leaves the stream enabled has failed, if at all, only at the final check. */
  lemma EnabledSetup(s: Session, t: nat, w0: World, replies: seq<Reply>)
    requires Start(s, t, w0.rp) && Fits(s, w0.rp) && !w0.rp.streams[s.i].Enabled() && |replies| == |SetupSteps(false)|
    requires ExecAll(s, w0, SetupSteps(false), replies).w.rp.streams[s.i].Enabled()
    ensures var w := ExecAll(s, w0, SetupSteps(false), replies).w; TransmitAgrees(w, s.i) && ReceiveAgrees(w, s.i)
  {
    var steps := SetupSteps(false);
    GuardedFits(s, t, w0.rp);
    ProcedureSteps(false);
    OrderedNoRepeats(steps, 1);
    NotYetEnabled(s, w0, replies, 17);
    if !Exec(s, w0, steps, replies, 17).ok {
      ExecStopped(s, w0, steps, replies, 17, |steps|);
    } else {
      assert steps[17] == EnableRootPort && steps[18] == CheckSecure;
      var w := Exec(s, w0, steps, replies, 18).w;
      ExecDone(s, w0, steps, replies, 18);
      PlaceOf(steps, 1, Select);
      assert Done(s, w, steps[1 + SELECT_POSITION]);
      forall dir, sub ensures Agrees(w, s.i, Selected(w.rp.streams[s.i]), dir, sub) {
        PlaceOf(steps, 1, KeyProg(dir, sub));
        assert Done(s, w, steps[1 + Position(KeyProg(dir, sub))]);
      }
      assert Exec(s, w0, steps, replies, 19).w == w;
    }
  }

  lemma InUseBothWays(w: World, i: nat)
    requires InUseAgrees(w, i)
    ensures TransmitAgrees(w, i) && ReceiveAgrees(w, i)
  {
    forall sub ensures Agrees(w, i, Selected(w.rp.streams[i]), RX, sub) { assert PathsInUse(w, i, sub); }
    forall sub | Settled(w, i, sub) ensures Agrees(w, i, Selected(w.rp.streams[i]), TX, sub) {
      assert PathsInUse(w, i, sub);
    }
  }

  /** What an operation leaves its own stream with. */
  lemma OwnStreamOk(f: Fleet, op: Op)
    requires Consistent(f) && Applicable(f, op) && !op.Close? && HasSlots(f, op)
    ensures StreamOk(Apply(f, op), op.j)
  {
    SessionFits(f, op);
    var s, w, t := SessionOf(f, op), StartWorld(f, op), TripleFor(f, op);
    var run := ExecAll(s, w, StepsOf(op), op.replies);
    ProcedureSteps(false);
    assert StreamOk(f, op.j);
    if op.Open? {
      SetupAgrees(s, t, w, op.replies);
      if !run.ok && run.w.rp.streams[op.j].Enabled() {
        EnabledSetup(s, t, w, op.replies);
      }
    } else {
      var cur := f.peers[op.j].status.ks;
      SwitchAgrees(s, t, w, op.replies, cur);
      SwitchKeepsTraffic(s, t, w, false, op.replies, |op.replies|, cur);
      if !run.ok {
        InUseBothWays(run.w, op.j);
      }
    }
  }

  lemma OpMove(f: Fleet, op: Op)
    requires Consistent(f) && Applicable(f, op)
    ensures GoodMove(f.rp, Apply(f, op).rp, op.j)
  {
    if op.Close? {
      PlacedKeepsDisjoint(f.rp, Apply(f, op).rp, op.j, |f.rp.tx|);
    } else if HasSlots(f, op) {
      SessionFits(f, op);
      ProcedureSteps(false);
      var s, w := SessionOf(f, op), StartWorld(f, op);
      SessionMove(s, TripleFor(f, op), w, StepsOf(op), if op.Open? then 1 else 0, op.replies);
    }
  }

  /** Every operation, in every consistent state and with every outcome, keeps the state
      consistent and the live keys of all other streams. */
  lemma ApplyConsistent(f: Fleet, op: Op)
    requires Consistent(f)
    ensures Consistent(Apply(f, op))
    ensures forall j | 0 <= j < |f.rp.streams| && f.rp.streams[j].Enabled() && j != op.j ::
      KeepsLive(f.rp, Apply(f, op).rp, j)
  {
    if Applicable(f, op) {
      OpMove(f, op);
      var f' := Apply(f, op);
      forall k | 0 <= k < |f'.peers| ensures StreamOk(f', k) {
        assert StreamOk(f, k);
        if k != op.j {
          OtherStreamOk(f, f', op.j, k);
        } else if !op.Close? && HasSlots(f, op) {
          OwnStreamOk(f, op);
        } else if op.Refresh? {
          AgreementInUse(f.WorldOf(k), k, f.peers[k].status.ks);
          InUseBothWays(f.WorldOf(k), k);
        }
      }
    }
  }

  function ApplyAll(f: Fleet, ops: seq<Op>): (r: Fleet)
    requires Consistent(f)
    ensures Consistent(r) && |r.peers| == |f.peers|
  {
    if ops == [] then f
    else
      var before := ApplyAll(f, ops[..|ops| - 1]);
      ApplyConsistent(before, ops[|ops| - 1]);
      Apply(before, ops[|ops| - 1])
  }

  /** Before anything is opened. */
  predicate AllIdle(f: Fleet) {
    && |f.peers| == |f.rp.streams| && GoodCounts(f.rp)
    && forall j | 0 <= j < |f.peers| :: f.peers[j].status.Idle? && !f.rp.streams[j].Enabled()
  }

  /** Safety over whole runs, with any number of streams: in every state reached from an idle root
      port the state is consistent, and at every single step of whatever operation comes next the
      triples are disjoint and every enabled stream keeps its live keys, but for the step that moves
      the selection of the stream being switched. */
  lemma RunsSafe(f0: Fleet, ops: seq<Op>, op: Op, n: nat)
    requires AllIdle(f0)
    ensures Consistent(f0) && Consistent(ApplyAll(f0, ops))
    ensures var f := ApplyAll(f0, ops);
      Applicable(f, op) && !op.Close? && HasSlots(f, op) && n < |StepsOf(op)| ==>
        Fits(SessionOf(f, op), StartWorld(f, op).rp)
        && var rp := Exec(SessionOf(f, op), StartWorld(f, op), StepsOf(op), op.replies, n).w.rp;
           var rp' := Exec(SessionOf(f, op), StartWorld(f, op), StepsOf(op), op.replies, n + 1).w.rp;
           && Disjoint(rp) && Disjoint(rp')
           && forall j | 0 <= j < |rp.streams| && rp.streams[j].Enabled() ::
                KeepsLive(rp, rp', j) || (j == op.j && StepsOf(op)[n] == Select)
  {
    forall j | 0 <= j < |f0.peers| ensures StreamOk(f0, j) {
    }
    var f := ApplyAll(f0, ops);
    if Applicable(f, op) && !op.Close? && HasSlots(f, op) && n < |StepsOf(op)| {
      SessionFits(f, op);
      ProcedureSteps(false);
      RunSafe(SessionOf(f, op), TripleFor(f, op), StartWorld(f, op), StepsOf(op),
        if op.Open? then 1 else 0, op.replies, n);
    }
  }
}
