/** What becomes of a stream whose refresh has failed.  The allocator looks at the selected key set
    of the root port's Tx side only, so once the selection has moved it hands out the slots of the old
    key set, even if the device still transmits with it. */
module FailedRefresh {
  import opened Words
  import opened Kcbar
  import opened SlotAlloc
  import opened KeyProtocol
  import opened StreamSafety
  import opened KeyAgreement
  import opened Fleet

  /** Operations on streams other than `j`. */
  predicate Elsewhere(ops: seq<Op>, j: nat) { forall k | 0 <= k < |ops| :: ops[k].j != j }

  /** Whatever happens on other streams, stream `j` agrees on its paths of one sub-stream. */
  ghost predicate Survives(f: Fleet, j: nat, sub: SubStream)
    requires Consistent(f) && j < |f.peers|
  {
    forall ops | Elsewhere(ops, j) :: PathsInUse(ApplyAll(f, ops).WorldOf(j), j, sub)
  }

  // ------------------------------------------------------------ where a run failed

  /** The step that failed; it left the root port alone. */
  lemma {:induction false} FailurePoint(s: Session, w: World, steps: seq<Step>, r: seq<Reply>, m: nat) returns (n: nat)
    requires Fits(s, w.rp) && m <= |steps| && m <= |r| && !Exec(s, w, steps, r, m).ok
    ensures n < m && Exec(s, w, steps, r, n).ok && Exec(s, w, steps, r, n + 1) == Exec(s, w, steps, r, m)
    ensures Exec(s, w, steps, r, m).w.rp == Exec(s, w, steps, r, n).w.rp
  {
    if Exec(s, w, steps, r, m - 1).ok {
      n := m - 1;
    } else {
      n := FailurePoint(s, w, steps, r, m - 1);
    }
  }

  /** A run leaves the indices of the other key set of its stream alone. */
  lemma {:induction false} OtherIndicesKept(s: Session, w: World, steps: seq<Step>, r: seq<Reply>, n: nat,
                                        dir: Direction)
    requires Fits(s, w.rp) && n <= |steps| && n <= |r|
    ensures var ks := s.ks.Other();
      Exec(s, w, steps, r, n).w.rp.streams[s.i].Indices(dir, ks) == w.rp.streams[s.i].Indices(dir, ks)
  {
    if n > 0 {
      OtherIndicesKept(s, w, steps, r, n - 1, dir);
      StepKeepsIndices(s, Exec(s, w, steps, r, n - 1).w, steps[n - 1], r[n - 1], dir);
    }
  }

  lemma StepKeepsIndices(s: Session, w: World, st: Step, r: Reply, dir: Direction)
    requires Fits(s, w.rp)
    ensures var ks := s.ks.Other();
      DoStep(s, w, st, r).w.rp.streams[s.i].Indices(dir, ks) == w.rp.streams[s.i].Indices(dir, ks)
  {
    if st.KeyProg? && r.ok {
      var own := w.rp.streams[s.i];
      IndicesApart(own, s.ks, st.dir, s.ks.Other(), dir,
        WithSlotIndex(own.Indices(st.dir, s.ks), st.sub, s.ids.Id(st.dir, st.sub)));
    }
  }

  /** A failed switch of a running stream. */
  predicate Failing(s: Session, t: nat, w: World, r: seq<Reply>, cur: KeySet) {
    && Agreement(w, s.i, cur) && Guarded(s, t, w.rp) && s.ks == cur.Other() && Fits(s, w.rp)
    && |r| == |SwitchSteps(false)| && !ExecAll(s, w, SwitchSteps(false), r).ok
  }

  /** Up to the selection it leaves the root port and the device transmitting with the old keys; later
      all new keys are in place and selected. */
  lemma FailedSwitch(s: Session, t: nat, w: World, r: seq<Reply>, cur: KeySet) returns (n: nat)
    requires Failing(s, t, w, r, cur)
    ensures n < |r| && Exec(s, w, SwitchSteps(false), r, n).ok
    ensures Exec(s, w, SwitchSteps(false), r, n).w.rp == ExecAll(s, w, SwitchSteps(false), r).w.rp
    ensures var w' := ExecAll(s, w, SwitchSteps(false), r).w;
      if BeforeSelect(0, n) then w'.rp.streams[s.i].Selects(cur) && forall sub :: Active(w'.dev, TX, sub, cur)
      else w'.rp.streams[s.i].Selects(s.ks) && forall dir, sub ::
        Done(s, Exec(s, w, SwitchSteps(false), r, n).w, KeyProg(dir, sub))
  {
    var steps := SwitchSteps(false);
    GuardedFits(s, t, w.rp);
    ProcedureSteps(false);
    n := FailurePoint(s, w, steps, r, |steps|);
    AgreementInUse(w, s.i, cur);
    forall sub ensures Active(w.dev, TX, sub, cur) {
      assert Agrees(w, s.i, cur, TX, sub) && Active(w.dev, TX, sub, cur);
    }
    ExecInUse(s, t, w, steps, 0, r, n, cur);
    var before := Exec(s, w, steps, r, n).w;
    if BeforeSelect(0, n) {
      StepFrame(s, before, steps[n], r[n]);
      forall sub ensures Active(ExecAll(s, w, steps, r).w.dev, TX, sub, cur) {
        assert Active(before.dev, TX, sub, cur);
      }
    } else {
      KeysSelected(s, w, r, n);
    }
  }

  lemma KeysSelected(s: Session, w: World, r: seq<Reply>, n: nat)
    requires Fits(s, w.rp) && DistinctIds(s.ids) && |r| == |SwitchSteps(false)| && SELECT_POSITION < n <= |r|
    requires Exec(s, w, SwitchSteps(false), r, n).ok
    ensures var w' := Exec(s, w, SwitchSteps(false), r, n).w;
      Done(s, w', Select) && forall dir, sub :: Done(s, w', KeyProg(dir, sub))
  {
    var steps := SwitchSteps(false);
    ProcedureSteps(false);
    OrderedNoRepeats(steps, 0);
    ExecDone(s, w, steps, r, n);
    PlaceOf(steps, 0, Select);
    forall dir, sub ensures Done(s, Exec(s, w, steps, r, n).w, KeyProg(dir, sub)) {
      PlaceOf(steps, 0, KeyProg(dir, sub));
    }
  }

  /** If the selection has moved, a failed switch leaves the stream on its new triple. */
  lemma MovedTriple(s: Session, t: nat, w: World, r: seq<Reply>, cur: KeySet)
    requires Failing(s, t, w, r, cur) && ExecAll(s, w, SwitchSteps(false), r).w.rp.streams[s.i].Selects(s.ks)
    ensures TripleOf(ExecAll(s, w, SwitchSteps(false), r).w.rp.streams[s.i]) == t
  {
    var n := FailedSwitch(s, t, w, r, cur);
    ExecOthers(s, w, SwitchSteps(false), r, n);
    ProgrammedTriple(s, t, Exec(s, w, SwitchSteps(false), r, n).w);
  }

  // ------------------------------------------------------------ a setup that succeeds

  function GoodOpen(j: nat, t: nat, key: Key): Op { Open(j, t, 0, KS0, false, AllWell(|SetupSteps(false)|, key)) }

  predicate Holds(rp: RootPort, t: nat, key: Key) {
    forall sub: SubStream ::
      SUB_STREAMS * t + sub.Index() < |rp.rx| && rp.rx[SUB_STREAMS * t + sub.Index()].key == Reversed(key)
  }

  /** A setup that goes well puts its key into the slots of its triple. */
  lemma SetupTakes(s: Session, t: nat, w: World, key: Key)
    requires Fits(s, w.rp) && DistinctIds(s.ids) && t < 0x1000 && s.ids == Triple(t) && !s.fixedKey
    ensures var run := ExecAll(s, w, SetupSteps(false), AllWell(|SetupSteps(false)|, key));
      run.ok && Holds(run.w.rp, t, key)
  {
    var steps, r := SetupSteps(false), AllWell(|SetupSteps(false)|, key);
    ProcedureSteps(false);
    OrderedNoRepeats(steps, 1);
    assert r[..|steps|] == r;
    ExecAllWell(s, w, steps, r, key, |steps|);
    ExecDone(s, w, steps, r, |steps|);
    var w' := ExecAll(s, w, steps, r).w;
    forall sub: SubStream
      ensures SUB_STREAMS * t + sub.Index() < |w'.rp.rx| && w'.rp.rx[SUB_STREAMS * t + sub.Index()].key == Reversed(key)
    {
      PlaceOf(steps, 1, KeyProg(TX, sub));
      assert Done(s, w', steps[1 + Position(KeyProg(TX, sub))]);
      assert s.ids.Id(TX, sub) == SUB_STREAMS * t + sub.Index();
    }
  }

  /** An opening that goes well leaves the stream running, with its key in the slots of its triple. */
  lemma OpenTakes(f: Fleet, j: nat, t: nat, key: Key)
    requires Consistent(f) && Applicable(f, GoodOpen(j, t, key))
    ensures var f' := Apply(f, GoodOpen(j, t, key));
      f'.peers[j].status == Running(KS0) && OthersKept(f.rp, f'.rp, j) && |f'.rp.rx| == |f.rp.rx| &&
        Holds(f'.rp, t, key)
  {
    var op := GoodOpen(j, t, key);
    SessionFits(f, op);
    OpMove(f, op);
    GuardedFits(SessionOf(f, op), t, StartWorld(f, op).rp);
    SetupTakes(SessionOf(f, op), t, StartWorld(f, op), key);
  }

  // ------------------------------------------------------------ the old keys are lost

  function OtherKey(k: Key): Key { seq(KEY_DWORDS, _ => (k[0] + 1) % TWO_32) }

  lemma OtherKeyReversed(k: Key)
    ensures Reversed(OtherKey(k)) != Reversed(k)
  {
    assert Reversed(k)[KEY_DWORDS - 1] == k[0];
    assert Reversed(OtherKey(k))[KEY_DWORDS - 1] == (k[0] + 1) % TWO_32;
  }

  function Old(f: Fleet, j: nat, sub: SubStream): KeySet
    requires j < |f.peers| && Path(TX, sub) in f.peers[j].dev.active
  {
    f.peers[j].dev.active[Path(TX, sub)]
  }

  /** The device still transmits with a key set whose slots are free. */
  predicate Exposed(f: Fleet, j: nat, sub: SubStream, t: nat) {
    && j < |f.peers| == |f.rp.streams| && Path(TX, sub) in f.peers[j].dev.active
    && FreeTriple(f.rp, t)
    && SlotIndex(f.rp.streams[j].Indices(TX, Old(f, j, sub)), sub) == SUB_STREAMS * t + sub.Index()
  }

  function KeyHeld(f: Fleet, j: nat, sub: SubStream): Key
    requires j < |f.peers| && Path(TX, sub) in f.peers[j].dev.active
  {
    var id := KeyId(Old(f, j, sub), TX, sub);
    if id in f.peers[j].dev.keys then f.peers[j].dev.keys[id].key else seq(KEY_DWORDS, _ => 0)
  }

  lemma OverwrittenDisagrees(f: Fleet, f': Fleet, j: nat, sub: SubStream, t: nat)
    requires Exposed(f, j, sub, t) && |f'.peers| == |f.peers| && |f'.rp.streams| == |f.rp.streams|
    requires f'.peers[j] == f.peers[j] && f'.rp.streams[j] == f.rp.streams[j]
    requires Holds(f'.rp, t, OtherKey(KeyHeld(f, j, sub)))
    ensures !PathsInUse(f'.WorldOf(j), j, sub)
  {
    OtherKeyReversed(KeyHeld(f, j, sub));
    assert f'.rp.rx[SUB_STREAMS * t + sub.Index()].key == Reversed(OtherKey(KeyHeld(f, j, sub)));
  }

  /** Two operations on any other stream then overwrite the root port's key. */
  lemma ExposedIsLost(f: Fleet, j: nat, sub: SubStream, t: nat, k: nat) returns (ops: seq<Op>)
    requires Consistent(f) && Exposed(f, j, sub, t) && k < |f.peers| && k != j
    ensures Elsewhere(ops, j)
    ensures var f' := ApplyAll(f, ops);
      && f'.peers[j] == f.peers[j] && |f'.rp.streams| == |f.rp.streams| && f'.rp.streams[j] == f.rp.streams[j]
      && !PathsInUse(f'.WorldOf(j), j, sub)
  {
    var key := OtherKey(KeyHeld(f, j, sub));
    ops := [Close(k), GoodOpen(k, t, key)];
    CloseLeavesFree(f, k, t);
    OpenTakes(Apply(f, ops[0]), k, t, key);
    ApplyTwo(f, ops);
    OverwrittenDisagrees(f, Apply(Apply(f, ops[0]), ops[1]), j, sub, t);
  }

  lemma CloseLeavesFree(f: Fleet, k: nat, t: nat)
    requires Consistent(f) && k < |f.peers| && FreeTriple(f.rp, t)
    ensures var f1 := Apply(f, Close(k));
      && Consistent(f1) && OthersKept(f.rp, f1.rp, k) && |f1.peers| == |f.peers| &&
        (forall j | 0 <= j < |f.peers| && j != k :: f1.peers[j] == f.peers[j])
      && FreeTriple(f1.rp, t) && !f1.rp.streams[k].Enabled() && f1.peers[k].status.Idle?
  {
    ApplyConsistent(f, Close(k));
    var rp' := Apply(f, Close(k)).rp;
    forall j | 0 <= j < |rp'.streams| ensures !UsedBy(rp'.streams[j], t) {
      assert !UsedBy(f.rp.streams[j], t);
    }
  }

  lemma ApplyOne(f: Fleet, op: Op)
    requires Consistent(f)
    ensures Consistent(Apply(f, op)) && ApplyAll(f, [op]) == Apply(f, op)
  {
    ApplyConsistent(f, op);
    assert [op][..0] == [];
  }

  lemma ApplyTwo(f: Fleet, ops: seq<Op>)
    requires Consistent(f) && |ops| == 2
    ensures Consistent(Apply(f, ops[0])) && ApplyAll(f, ops) == Apply(Apply(f, ops[0]), ops[1])
  {
    ApplyOne(f, ops[0]);
    assert ops[..1] == [ops[0]];
  }

  // ------------------------------------------------------------ a settled stream stays in agreement

  /** On a sub-stream where the device transmits with the selected key set, agreement is kept. */
  lemma SettledKept(f: Fleet, op: Op, j: nat, sub: SubStream)
    requires Consistent(f) && j < |f.peers| && op.j != j && f.rp.streams[j].Enabled()
    requires Settled(f.WorldOf(j), j, sub) && PathsInUse(f.WorldOf(j), j, sub)
    ensures var f' := Apply(f, op);
      |f'.rp.streams| == |f.rp.streams| && f'.rp.streams[j] == f.rp.streams[j] && f'.peers[j] == f.peers[j]
      && PathsInUse(f'.WorldOf(j), j, sub)
  {
    if Applicable(f, op) {
      OpMove(f, op);
      SelectedAgreesKept(f.WorldOf(j), Apply(f, op).rp, j, RX, sub);
      SelectedAgreesKept(f.WorldOf(j), Apply(f, op).rp, j, TX, sub);
    }
  }

  lemma {:induction false} SettledSurvives(f: Fleet, ops: seq<Op>, j: nat, sub: SubStream)
    requires Consistent(f) && j < |f.peers| && Elsewhere(ops, j) && f.rp.streams[j].Enabled()
    requires Settled(f.WorldOf(j), j, sub) && PathsInUse(f.WorldOf(j), j, sub)
    ensures var f' := ApplyAll(f, ops);
      |f'.rp.streams| == |f.rp.streams| && f'.rp.streams[j] == f.rp.streams[j] && f'.peers[j] == f.peers[j]
      && PathsInUse(f'.WorldOf(j), j, sub)
  {
    if ops != [] {
      var n := |ops| - 1;
      SettledSurvives(f, ops[..n], j, sub);
      ApplyConsistent(ApplyAll(f, ops[..n]), ops[n]);
      SettledKept(ApplyAll(f, ops[..n]), ops[n], j, sub);
    }
  }

  lemma {:induction false} AloneKept(f: Fleet, ops: seq<Op>, j: nat)
    requires Consistent(f) && j < |f.peers| == 1 && Elsewhere(ops, j)
    ensures ApplyAll(f, ops) == f
  {
    if ops != [] {
      AloneKept(f, ops[..|ops| - 1], j);
    }
  }

  // ------------------------------------------------------------ the exact condition

  /** A refresh of a running stream that fails, at whatever point. */
  predicate FailingRefresh(f: Fleet, op: Op) {
    && Consistent(f) && Applicable(f, op) && op.Refresh? && Apply(f, op).peers[op.j].status.Failed?
  }

  lemma RunningPlace(f: Fleet, j: nat)
    requires Consistent(f) && j < |f.peers| && f.peers[j].status.Running?
    ensures var cur := f.peers[j].status.ks; var st := f.rp.streams[j];
      && st.Enabled() && st.Selects(cur) && Selected(st) == cur && WellPlaced(f.rp, st)
      && forall sub :: Active(f.peers[j].dev, TX, sub, cur)
  {
    var cur := f.peers[j].status.ks;
    assert StreamOk(f, j);
    AgreementInUse(f.WorldOf(j), j, cur);
    forall sub ensures Active(f.peers[j].dev, TX, sub, cur) {
      assert Agrees(f.WorldOf(j), j, cur, TX, sub) && Active(f.WorldOf(j).dev, TX, sub, cur);
    }
  }

  /** Right after it all paths in use agree, whichever key sets they use. */
  lemma FailedInUse(f: Fleet, op: Op)
    requires FailingRefresh(f, op)
    ensures var f' := Apply(f, op);
      Consistent(f') && f'.rp.streams[op.j].Enabled() && InUseAgrees(f'.WorldOf(op.j), op.j)
  {
    ApplyConsistent(f, op);
    RunningPlace(f, op.j);
    var cur := f.peers[op.j].status.ks;
    assert StreamOk(f, op.j);
    if HasSlots(f, op) {
      SessionFits(f, op);
      SwitchKeepsTraffic(SessionOf(f, op), TripleFor(f, op), f.WorldOf(op.j), false, op.replies, |op.replies|, cur);
      StaysEnabled(SessionOf(f, op), f.WorldOf(op.j), SwitchSteps(false), op.replies, |op.replies|);
    } else {
      AgreementInUse(f.WorldOf(op.j), op.j, cur);
    }
  }

  /** On a sub-stream that is not settled the device still uses the old key set, and the selection has moved. */
  lemma UnsettledIsBetween(f: Fleet, op: Op, sub: SubStream)
    requires FailingRefresh(f, op) && Consistent(Apply(f, op)) && InUseAgrees(Apply(f, op).WorldOf(op.j), op.j)
    requires !Settled(Apply(f, op).WorldOf(op.j), op.j, sub)
    ensures var f', j, cur := Apply(f, op), op.j, f.peers[op.j].status.ks;
      && HasSlots(f, op) && Path(TX, sub) in f'.peers[j].dev.active && Old(f', j, sub) == cur
      && f'.rp.streams[j].Selects(cur.Other())
      && f'.rp.streams[j].Indices(TX, cur) == f.rp.streams[j].Indices(TX, cur)
  {
    RunningPlace(f, op.j);
    SessionFits(f, op);
    var s, w, f', steps := SessionOf(f, op), f.WorldOf(op.j), Apply(f, op), SwitchSteps(false);
    assert PathsInUse(f'.WorldOf(op.j), op.j, sub);
    assert s.ks.Other() == f.peers[op.j].status.ks && Active(w.dev, TX, sub, s.ks.Other());
    OldOrNew(s, w, steps, op.replies, |steps|, TX, sub);
    assert StreamOk(f, op.j);
    var n := FailedSwitch(s, TripleFor(f, op), w, op.replies, s.ks.Other());
    OtherIndicesKept(s, w, steps, op.replies, |steps|, TX);
    assert f'.WorldOf(op.j) == ExecAll(s, w, steps, op.replies).w;
  }

  /** Such a sub-stream is exposed: the old triple is free. */
  lemma UnsettledIsExposed(f: Fleet, op: Op, sub: SubStream)
    requires FailingRefresh(f, op) && Consistent(Apply(f, op)) && InUseAgrees(Apply(f, op).WorldOf(op.j), op.j)
    requires !Settled(Apply(f, op).WorldOf(op.j), op.j, sub)
    ensures Exposed(Apply(f, op), op.j, sub, TripleOf(f.rp.streams[op.j]))
  {
    UnsettledIsBetween(f, op, sub);
    RunningPlace(f, op.j);
    SessionFits(f, op);
    TripleForIsFree(f, op);
    assert StreamOk(f, op.j);
    MovedTriple(SessionOf(f, op), TripleFor(f, op), f.WorldOf(op.j), op.replies, f.peers[op.j].status.ks);
    OpMove(f, op);
    DisjointIsScannable(f.rp);
    assert !UsedBy(f.rp.streams[op.j], TripleFor(f, op));
    FailedInUse(f, op);
    OldTripleFree(f, Apply(f, op).rp, op.j);
  }

  lemma OldTripleFree(f: Fleet, rp': RootPort, j: nat)
    requires Disjoint(f.rp) && Disjoint(rp') && j < |f.rp.streams| && f.rp.streams[j].Enabled() &&
      OthersKept(f.rp, rp', j)
    requires |rp'.tx| == |f.rp.tx| && rp'.streams[j].Enabled() && TripleOf(rp'.streams[j]) != TripleOf(f.rp.streams[j])
    ensures FreeTriple(rp', TripleOf(f.rp.streams[j]))
  {
    DisjointIsScannable(f.rp);
    DisjointIsScannable(rp');
    var t := TripleOf(f.rp.streams[j]);
    forall k | 0 <= k < |rp'.streams| ensures !UsedBy(rp'.streams[k], t) {
      if rp'.streams[k].Enabled() {
        assert UsedBy(rp'.streams[k], TripleOf(rp'.streams[k]));
        assert k != j ==> TripleOf(f.rp.streams[k]) != t;
      }
    }
  }

  /** After a failed refresh the agreement of one sub-stream survives everything that happens on other
      streams if and only if there are no other streams, or the device transmits on it with the key set
      that the root port has selected. */
  lemma PathSurvivesExactly(f: Fleet, op: Op, sub: SubStream)
    requires FailingRefresh(f, op)
    ensures Consistent(Apply(f, op))
    ensures Survives(Apply(f, op), op.j, sub) <==>
      |f.rp.streams| == 1 || Settled(Apply(f, op).WorldOf(op.j), op.j, sub)
  {
    FailedInUse(f, op);
    var f', j := Apply(f, op), op.j;
    assert PathsInUse(f'.WorldOf(j), j, sub);
    if Settled(f'.WorldOf(j), j, sub) {
      forall ops | Elsewhere(ops, j) ensures PathsInUse(ApplyAll(f', ops).WorldOf(j), j, sub) {
        SettledSurvives(f', ops, j, sub);
      }
    } else if |f.rp.streams| == 1 {
      forall ops | Elsewhere(ops, j) ensures PathsInUse(ApplyAll(f', ops).WorldOf(j), j, sub) {
        AloneKept(f', ops, j);
      }
    } else {
      UnsettledIsExposed(f, op, sub);
      var ops := ExposedIsLost(f', j, sub, TripleOf(f.rp.streams[j]), if j == 0 then 1 else 0);
    }
  }

  /** All paths in use of a stream whose refresh failed stay in agreement, whatever happens on other
      streams, if and only if there are no others, or the refresh stopped before the root port's
      selection moved, or the device transmits with the new key set on every sub-stream already. */
  lemma InUseSurvivesExactly(f: Fleet, op: Op)
    requires FailingRefresh(f, op)
    ensures Consistent(Apply(f, op))
    ensures var f', cur := Apply(f, op), f.peers[op.j].status.ks;
      (forall sub :: Survives(f', op.j, sub)) <==>
        || |f.rp.streams| == 1 || f'.rp.streams[op.j].Selects(cur)
        || forall sub :: Active(f'.peers[op.j].dev, TX, sub, cur.Other())
  {
    FailedInUse(f, op);
    var f', j, cur := Apply(f, op), op.j, f.peers[op.j].status.ks;
    forall sub ensures Survives(f', j, sub) <==> |f.rp.streams| == 1 || Settled(f'.WorldOf(j), j, sub) {
      PathSurvivesExactly(f, op, sub);
    }
    forall sub ensures Settled(f'.WorldOf(j), j, sub) ||
      (f'.rp.streams[j].Selects(cur.Other()) && Active(f'.peers[j].dev, TX, sub, cur)) {
      if !Settled(f'.WorldOf(j), j, sub) {
        UnsettledIsBetween(f, op, sub);
      }
    }
    if sub :| !Settled(f'.WorldOf(j), j, sub) {
      assert !f'.rp.streams[j].Selects(cur) && !Active(f'.peers[j].dev, TX, sub, cur.Other());
    } else {
      assert HasSelection(f'.rp.streams[j]);
      if !f'.rp.streams[j].Selects(cur) {
        forall sub ensures Active(f'.peers[j].dev, TX, sub, cur.Other()) {
          assert Settled(f'.WorldOf(j), j, sub);
        }
      }
    }
  }

  // ------------------------------------------------------------ it happens

  /** The device takes the new keys for reception and refuses to transmit with them. */
  function RefusesToTransmit(key: Key): (r: seq<Reply>)
    ensures |r| == |SwitchSteps(false)|
  {
    AllWell(SELECT_POSITION + 1, key) + seq(|SwitchSteps(false)| - SELECT_POSITION - 1, _ => Reply(false, false, key))
  }

  lemma RefusalLeavesBetween(s: Session, t: nat, w: World, key: Key, cur: KeySet)
    requires Agreement(w, s.i, cur) && Guarded(s, t, w.rp) && s.ks == cur.Other() && Fits(s, w.rp) && !s.fixedKey
    ensures var run := ExecAll(s, w, SwitchSteps(false), RefusesToTransmit(key));
      !run.ok && run.w.rp.streams[s.i].Selects(s.ks) && Active(run.w.dev, TX, PR, cur)
  {
    var steps, r, n := SwitchSteps(false), RefusesToTransmit(key), SELECT_POSITION;
    GuardedFits(s, t, w.rp);
    ProcedureSteps(false);
    AgreementInUse(w, s.i, cur);
    forall sub ensures Active(w.dev, TX, sub, cur) {
      assert Agrees(w, s.i, cur, TX, sub) && Active(w.dev, TX, sub, cur);
    }
    assert r[..n] == AllWell(n, key) && r[..n + 1] == AllWell(n + 1, key);
    ExecAllWell(s, w, steps, r, key, n);
    ExecInUse(s, t, w, steps, 0, r, n, cur);
    var before := Exec(s, w, steps, r, n).w;
    assert Active(before.dev, TX, PR, cur);
    PlaceOf(steps, 0, Select);
    PlaceOf(steps, 0, KSetGo(TX, PR));
    StepFrame(s, before, Select, r[n]);
    StepDone(s, before, Select, r[n]);
    assert Exec(s, w, steps, r, n + 2).w == Exec(s, w, steps, r, n + 1).w && !Exec(s, w, steps, r, n + 2).ok;
    ExecStopped(s, w, steps, r, n + 2, |steps|);
  }

  /** One enabled stream leaves room on a root port with two triples. */
  lemma RoomForTwo(rp: RootPort)
    requires Disjoint(rp) && 2 * SUB_STREAMS <= |rp.tx| <= MAP_BITS * SUB_STREAMS && |rp.streams| > 0
    requires forall k | 0 < k < |rp.streams| :: !rp.streams[k].Enabled()
    ensures Allocates(rp)
  {
  }

  lemma OpenThenRefuse(f0: Fleet, key: Key) returns (f1: Fleet, refresh: Op)
    requires AllIdle(f0) && Consistent(f0) && 0 < |f0.peers| && 2 * SUB_STREAMS <= |f0.rp.tx| <= MAP_BITS * SUB_STREAMS
    ensures f1 == Apply(f0, GoodOpen(0, 0, key)) && FailingRefresh(f1, refresh) && refresh.j == 0 &&
      |f1.rp.streams| == |f0.rp.streams|
    ensures !Settled(Apply(f1, refresh).WorldOf(0), 0, PR) && Apply(f1, refresh).rp.streams[0].Enabled()
  {
    f1, refresh := Apply(f0, GoodOpen(0, 0, key)), Refresh(0, false, RefusesToTransmit(key));
    OpenTakes(f0, 0, 0, key);
    OpMove(f0, GoodOpen(0, 0, key));
    ApplyConsistent(f0, GoodOpen(0, 0, key));
    RoomForTwo(f1.rp);
    assert StreamOk(f1, 0);
    SessionFits(f1, refresh);
    RefusalLeavesBetween(SessionOf(f1, refresh), TripleFor(f1, refresh), f1.WorldOf(0), key, KS0);
    FailedInUse(f1, refresh);
  }

  /** What happens next, on any other stream. */
  lemma ThenLost(f: Fleet, refresh: Op, k: nat) returns (ops: seq<Op>)
    requires FailingRefresh(f, refresh) && k < |f.peers| && k != refresh.j
    requires !Settled(Apply(f, refresh).WorldOf(refresh.j), refresh.j, PR)
    ensures Consistent(Apply(f, refresh)) && Lost(ApplyAll(Apply(f, refresh), ops), refresh.j)
  {
    FailedInUse(f, refresh);
    UnsettledIsExposed(f, refresh, PR);
    ops := ExposedIsLost(Apply(f, refresh), refresh.j, PR, TripleOf(f.rp.streams[refresh.j]), k);
  }

  /** The stream is still enabled, but the root port cannot read what the device sends. */
  predicate Lost(f: Fleet, j: nat) {
    && j < |f.peers| == |f.rp.streams|
    && f.peers[j].status.Failed? && f.rp.streams[j].Enabled() && !PathsInUse(f.WorldOf(j), j, PR)
  }

  /** From an idle root port with two streams and two triples: a stream is opened, its refresh fails
      because the device refuses to transmit with the new keys, another stream is opened on the old
      triple, and the root port can no longer read what the device sends. */
  lemma OldKeysLost(f0: Fleet, key: Key) returns (ops: seq<Op>)
    requires AllIdle(f0) && 2 <= |f0.peers| && 2 * SUB_STREAMS <= |f0.rp.tx| <= MAP_BITS * SUB_STREAMS
    ensures Consistent(f0) && Lost(ApplyAll(f0, ops), 0)
  {
    forall j | 0 <= j < |f0.peers| ensures StreamOk(f0, j) {
    }
    var f1, refresh := OpenThenRefuse(f0, key);
    var first := [GoodOpen(0, 0, key), refresh];
    var later := ThenLost(f1, refresh, 1);
    ops := first + later;
    ApplyTwo(f0, first);
    ApplyConcat(f0, first, later);
  }

  lemma {:induction false} ApplyConcat(f: Fleet, a: seq<Op>, b: seq<Op>)
    requires Consistent(f)
    ensures ApplyAll(f, a + b) == ApplyAll(ApplyAll(f, a), b)
  {
    if b == [] {
      assert a + b == a;
    } else {
      ApplyConcat(f, a, b[..|b| - 1]);
      assert (a + b)[..|a + b| - 1] == a + b[..|b| - 1];
    }
  }
}
