/** Both ends of a stream use the same keys: after a complete setup or switch for all six
    paths, and for the paths in use at every point of every switch, complete or cut short. */
module KeyAgreement {
  import opened Words
  import opened Kcbar
  import opened SlotAlloc
  import opened KeyProtocol
  import opened StreamSafety

  /** The stream is up on key set `ks`, and every path has the same key on both sides. */
  predicate Agreement(w: World, i: nat, ks: KeySet) {
    && i < |w.rp.streams| && Disjoint(w.rp)
    && w.rp.streams[i].Enabled() && w.rp.streams[i].Selects(ks)
    && w.rpEnabled && w.dev.enabled
    && forall dir, sub :: Agrees(w, i, ks, dir, sub) && Active(w.dev, dir, sub, ks)
  }

  /** The paths in use agree: what the root port transmits with (its selected key set) is what
      the device holds for reception, and what the device transmits with (the key set it was told
      to use) is what the root port holds for reception. */
  predicate InUseAgrees(w: World, i: nat) {
    && i < |w.rp.streams| && HasSelection(w.rp.streams[i])
    && forall sub :: PathsInUse(w, i, sub)
  }

  predicate PathsInUse(w: World, i: nat, sub: SubStream)
    requires i < |w.rp.streams|
  {
    && Agrees(w, i, Selected(w.rp.streams[i]), RX, sub)
    && Path(TX, sub) in w.dev.active && Agrees(w, i, w.dev.active[Path(TX, sub)], TX, sub)
  }

  lemma AgreementInUse(w: World, i: nat, ks: KeySet)
    requires Agreement(w, i, ks)
    ensures InUseAgrees(w, i) && Selected(w.rp.streams[i]) == ks
  {
    assert Selected(w.rp.streams[i]) == ks;
    forall sub ensures PathsInUse(w, i, sub) {
      assert Agrees(w, i, ks, RX, sub) && Agrees(w, i, ks, TX, sub) && Active(w.dev, TX, sub, ks);
    }
  }

  /** One path stays in agreement when its index, its slot and the device's key stay. */
  lemma AgreesKept(w: World, w': World, i: nat, ks: KeySet, dir: Direction, sub: SubStream)
    requires Agrees(w, i, ks, dir, sub) && i < |w'.rp.streams|
    requires w'.rp.streams[i].Indices(dir, ks) == w.rp.streams[i].Indices(dir, ks)
    requires KeyId(ks, dir, sub) in w'.dev.keys && w'.dev.keys[KeyId(ks, dir, sub)] == w.dev.keys[KeyId(ks, dir, sub)]
    requires |w'.rp.Bank(dir)| == |w.rp.Bank(dir)|
    requires var n := SlotIndex(w.rp.streams[i].Indices(dir, ks), sub); w'.rp.Bank(dir)[n] == w.rp.Bank(dir)[n]
    ensures Agrees(w', i, ks, dir, sub)
  {
  }

  /** Keys of the selected set stay in agreement while another set is programmed. */
  lemma SelectedKept(s: Session, t: nat, w: World, st: Step, r: Reply, ks: KeySet, dir: Direction, sub: SubStream)
    requires Start(s, t, w.rp) && Fits(s, w.rp) && w.rp.streams[s.i].Enabled()
    requires st.KeyProg?
    requires w.rp.streams[s.i].Selects(ks) && Agrees(w, s.i, ks, dir, sub)
    ensures Agrees(DoStep(s, w, st, r).w, s.i, ks, dir, sub)
  {
    var own := w.rp.streams[s.i];
    var w' := DoStep(s, w, st, r).w;
    TriplesApart(s, t, w.rp, s.i);
    assert Selected(own) == ks && ks != s.ks;
    var n, m := SlotIndex(own.Indices(dir, ks), sub), s.ids.Id(st.dir, st.sub);
    assert n == SUB_STREAMS * TripleOf(own) + sub.Index() && m == SUB_STREAMS * t + st.sub.Index();
    assert n != m;
    if r.ok {
      IndicesApart(own, s.ks, st.dir, ks, dir, WithSlotIndex(own.Indices(st.dir, s.ks), st.sub, m));
      assert w'.rp.streams[s.i].Indices(dir, ks) == own.Indices(dir, ks);
    }
    AgreesKept(w, w', s.i, ks, dir, sub);
  }

  lemma IndicesApart(st: Stream, a: KeySet, dirA: Direction, b: KeySet, dirB: Direction, w: u32)
    requires a != b
    ensures st.WithIndices(dirA, a, w).Indices(dirB, b) == st.Indices(dirB, b)
  {
  }

  /** Steps other than programming change neither keys, nor indices, nor slots. */
  lemma KeysKept(s: Session, w: World, st: Step, r: Reply, ks: KeySet, dir: Direction, sub: SubStream)
    requires Fits(s, w.rp) && !st.KeyProg? && Agrees(w, s.i, ks, dir, sub)
    ensures Agrees(DoStep(s, w, st, r).w, s.i, ks, dir, sub)
  {
  }

  // ------------------------------------------------------------ a switch, step by step

  /** What holds between two steps of a switch away from `cur`; `before` says that neither the
      selection nor a K_SET_GO for transmission has come. */
  predicate InUseState(w: World, i: nat, cur: KeySet, before: bool) {
    && InUseAgrees(w, i) && w.rp.streams[i].Enabled()
    && (before ==> w.rp.streams[i].Selects(cur) && forall sub :: Active(w.dev, TX, sub, cur))
  }

  predicate LeavesOldKeys(st: Step) { st.Select? || (st.KSetGo? && st.dir == TX) }

  /** What a step does to the selection, the enable bit and the device's choice of key sets. */
  lemma StepFrame(s: Session, w: World, st: Step, r: Reply)
    requires Fits(s, w.rp)
    ensures var own, own' := w.rp.streams[s.i], DoStep(s, w, st, r).w.rp.streams[s.i];
      && own'.txCtrl % 4 == (if st.Select? then s.ks.Select() else own.txCtrl % 4)
      && (own'.Enabled() <==> own.Enabled() || st.EnableRootPort?)
      && DoStep(s, w, st, r).w.dev.active ==
           if st.KSetGo? && (r.ok || r.took) then w.dev.active[Path(st.dir, st.sub) := s.ks] else w.dev.active
  {
    PrimeFields(w.rp.streams[s.i].txCtrl, s.ks);
    SelectFields(w.rp.streams[s.i].txCtrl, s.ks);
  }

  /** The K_SET_GO of a path is sent and takes effect. */
  predicate Moved(s: Session, w: World, steps: seq<Step>, replies: seq<Reply>, m: nat, dir: Direction, sub: SubStream)
    requires Fits(s, w.rp) && m < |steps| && m < |replies|
  {
    steps[m] == KSetGo(dir, sub) && Exec(s, w, steps, replies, m).ok && (replies[m].ok || replies[m].took)
  }

  /** A path that used the other key set uses the new one once that has happened, and not before. */
  lemma {:induction false} MovedExactly(s: Session, w: World, steps: seq<Step>, replies: seq<Reply>, n: nat,
                                        dir: Direction, sub: SubStream)
    requires Fits(s, w.rp) && n <= |steps| && n <= |replies| && Active(w.dev, dir, sub, s.ks.Other())
    ensures var dev := Exec(s, w, steps, replies, n).w.dev;
      if exists m :: 0 <= m < n && Moved(s, w, steps, replies, m, dir, sub) then Active(dev, dir, sub, s.ks)
      else Active(dev, dir, sub, s.ks.Other())
  {
    if n > 0 {
      MovedExactly(s, w, steps, replies, n - 1, dir, sub);
      var run := Exec(s, w, steps, replies, n - 1);
      StepFrame(s, run.w, steps[n - 1], replies[n - 1]);
      if Moved(s, w, steps, replies, n - 1, dir, sub) {
        assert Active(Exec(s, w, steps, replies, n).w.dev, dir, sub, s.ks);
      }
    }
  }

  /** So a path only ever uses the old or the new key set. */
  lemma OldOrNew(s: Session, w: World, steps: seq<Step>, replies: seq<Reply>, n: nat, dir: Direction, sub: SubStream)
    requires Fits(s, w.rp) && n <= |steps| && n <= |replies| && Active(w.dev, dir, sub, s.ks.Other())
    ensures var dev := Exec(s, w, steps, replies, n).w.dev;
      Active(dev, dir, sub, s.ks) || Active(dev, dir, sub, s.ks.Other())
  {
    MovedExactly(s, w, steps, replies, n, dir, sub);
  }

  lemma ProgramInUse(s: Session, t: nat, w: World, st: Step, r: Reply, cur: KeySet)
    requires Start(s, t, w.rp) && Fits(s, w.rp) && InUseState(w, s.i, cur, true) && st.KeyProg?
    ensures InUseState(DoStep(s, w, st, r).w, s.i, cur, true)
  {
    var w' := DoStep(s, w, st, r).w;
    StepFrame(s, w, st, r);
    assert Selected(w.rp.streams[s.i]) == cur && Selected(w'.rp.streams[s.i]) == cur;
    forall sub ensures PathsInUse(w', s.i, sub) && Active(w'.dev, TX, sub, cur) {
      assert PathsInUse(w, s.i, sub) && Active(w.dev, TX, sub, cur);
      SelectedKept(s, t, w, st, r, cur, RX, sub);
      SelectedKept(s, t, w, st, r, cur, TX, sub);
    }
  }

  lemma OtherPath(s: Session, w: World, st: Step, r: Reply, sub: SubStream)
    requires Fits(s, w.rp) && PathsInUse(w, s.i, sub) && HasSelection(w.rp.streams[s.i]) && !st.KeyProg?
    requires LeavesOldKeys(st) ==> Done(s, w, KeyProg(RX, sub)) && Done(s, w, KeyProg(TX, sub))
    ensures PathsInUse(DoStep(s, w, st, r).w, s.i, sub)
  {
    var own := w.rp.streams[s.i];
    StepFrame(s, w, st, r);
    if LeavesOldKeys(st) {
      KeysKept(s, w, st, r, s.ks, RX, sub);
      KeysKept(s, w, st, r, s.ks, TX, sub);
    }
    KeysKept(s, w, st, r, Selected(own), RX, sub);
    KeysKept(s, w, st, r, w.dev.active[Path(TX, sub)], TX, sub);
  }

  /** Any other step keeps the paths in use in agreement, a K_SET_GO for transmission and the
      selection provided that the new keys are in place. */
  lemma OtherInUse(s: Session, w: World, st: Step, r: Reply, cur: KeySet, before: bool)
    requires Fits(s, w.rp) && InUseState(w, s.i, cur, before) && !st.KeyProg?
    requires LeavesOldKeys(st) ==> forall dir, sub :: Done(s, w, KeyProg(dir, sub))
    ensures InUseState(DoStep(s, w, st, r).w, s.i, cur, before && !LeavesOldKeys(st))
  {
    StepFrame(s, w, st, r);
    forall sub ensures PathsInUse(DoStep(s, w, st, r).w, s.i, sub) {
      assert PathsInUse(w, s.i, sub);
      if LeavesOldKeys(st) {
        assert Done(s, w, KeyProg(RX, sub)) && Done(s, w, KeyProg(TX, sub));
      }
      OtherPath(s, w, st, r, sub);
    }
    if before && !LeavesOldKeys(st) {
      forall sub ensures Active(DoStep(s, w, st, r).w.dev, TX, sub, cur) {
        assert Active(w.dev, TX, sub, cur);
      }
    }
  }

  lemma KeysDoneLater(s: Session, w: World, steps: seq<Step>, o: nat, replies: seq<Reply>, n: nat)
    requires Fits(s, w.rp) && DistinctIds(s.ids) && Ordered(steps, o)
    requires n < |steps| && n <= |replies| && Exec(s, w, steps, replies, n).ok && LeavesOldKeys(steps[n])
    ensures forall dir, sub :: Done(s, Exec(s, w, steps, replies, n).w, KeyProg(dir, sub))
  {
    forall dir, sub ensures Done(s, Exec(s, w, steps, replies, n).w, KeyProg(dir, sub)) {
      EarlierDone(s, w, steps, o, replies, n, KeyProg(dir, sub));
    }
  }

  lemma LeavingPlace(steps: seq<Step>, o: nat, n: nat)
    requires Ordered(steps, o) && n < |steps|
    ensures BeforeSelect(o, n + 1) ==> BeforeSelect(o, n) && !LeavesOldKeys(steps[n])
    ensures steps[n].KeyProg? ==> BeforeSelect(o, n)
  {
  }

  lemma NextInUse(s: Session, t: nat, w0: World, steps: seq<Step>, o: nat, replies: seq<Reply>, n: nat, cur: KeySet)
    requires Start(s, t, w0.rp) && Fits(s, w0.rp) && DistinctIds(s.ids) && Ordered(steps, o)
    requires n < |steps| && n < |replies| && Exec(s, w0, steps, replies, n).ok
    requires InUseState(Exec(s, w0, steps, replies, n).w, s.i, cur, BeforeSelect(o, n))
    ensures InUseState(DoStep(s, Exec(s, w0, steps, replies, n).w, steps[n], replies[n]).w, s.i, cur,
      BeforeSelect(o, n + 1))
  {
    LeavingPlace(steps, o, n);
    if steps[n].KeyProg? {
      ExecBetween(s, t, w0, steps, o, replies, n);
      ProgramInUse(s, t, Exec(s, w0, steps, replies, n).w, steps[n], replies[n], cur);
    } else {
      if LeavesOldKeys(steps[n]) {
        KeysDoneLater(s, w0, steps, o, replies, n);
      }
      OtherInUse(s, Exec(s, w0, steps, replies, n).w, steps[n], replies[n], cur, BeforeSelect(o, n));
    }
  }

  lemma WeakerInUse(w: World, i: nat, cur: KeySet, before: bool)
    requires InUseState(w, i, cur, before)
    ensures InUseState(w, i, cur, false)
  {
  }

  lemma {:induction false} ExecInUse(s: Session, t: nat, w0: World, steps: seq<Step>, o: nat, replies: seq<Reply>,
                                     n: nat, cur: KeySet)
    requires Start(s, t, w0.rp) && Fits(s, w0.rp) && DistinctIds(s.ids) && Ordered(steps, o)
    requires InUseState(w0, s.i, cur, true) && n <= |steps| && n <= |replies|
    ensures InUseAt(s, w0, steps, o, replies, n, cur)
  {
    if n > 0 {
      ExecInUse(s, t, w0, steps, o, replies, n - 1, cur);
      ExecInUseNext(s, t, w0, steps, o, replies, n - 1, cur);
    }
  }

  /** `InUseState` after the first `n` steps. */
  predicate InUseAt(s: Session, w0: World, steps: seq<Step>, o: nat, replies: seq<Reply>, n: nat, cur: KeySet)
    requires Fits(s, w0.rp) && n <= |steps| && n <= |replies|
  {
    var run := Exec(s, w0, steps, replies, n); InUseState(run.w, s.i, cur, run.ok && BeforeSelect(o, n))
  }

  lemma ExecInUseNext(s: Session, t: nat, w0: World, steps: seq<Step>, o: nat, replies: seq<Reply>, n: nat, cur: KeySet)
    requires Start(s, t, w0.rp) && Fits(s, w0.rp) && DistinctIds(s.ids) && Ordered(steps, o)
    requires n < |steps| && n < |replies|
    requires InUseAt(s, w0, steps, o, replies, n, cur)
    ensures InUseAt(s, w0, steps, o, replies, n + 1, cur)
  {
    var next := Exec(s, w0, steps, replies, n + 1);
    if Exec(s, w0, steps, replies, n).ok {
      NextInUse(s, t, w0, steps, o, replies, n, cur);
      WeakerInUse(next.w, s.i, cur, BeforeSelect(o, n + 1));
    }
  }

  /** At every point of a switch of a running stream, complete or cut short, whatever the device
      answers, both ends agree on the keys of every path in use. */
  lemma SwitchKeepsTraffic(s: Session, t: nat, w0: World, skip: bool, replies: seq<Reply>, n: nat, cur: KeySet)
    requires Agreement(w0, s.i, cur) && Guarded(s, t, w0.rp)
    requires n <= |SwitchSteps(skip)| && n <= |replies|
    ensures Fits(s, w0.rp) && InUseAgrees(Exec(s, w0, SwitchSteps(skip), replies, n).w, s.i)
  {
    GuardedFits(s, t, w0.rp);
    ProcedureSteps(skip);
    AgreementInUse(w0, s.i, cur);
    forall sub ensures Active(w0.dev, TX, sub, cur) { assert Active(w0.dev, TX, sub, cur); }
    ExecInUse(s, t, w0, SwitchSteps(skip), 0, replies, n, cur);
  }

  // ------------------------------------------------------------ complete procedures

  lemma PathDone(s: Session, w: World, steps: seq<Step>, o: nat, dir: Direction, sub: SubStream)
    requires Fits(s, w.rp) && Ordered(steps, o) && o + 15 <= |steps|
    requires forall k | 0 <= k < |steps| :: Done(s, w, steps[k])
    ensures Agrees(w, s.i, s.ks, dir, sub) && Active(w.dev, dir, sub, s.ks)
  {
    PlaceOf(steps, o, KeyProg(dir, sub));
    PlaceOf(steps, o, KSetGo(dir, sub));
    assert Done(s, w, steps[o + Position(KeyProg(dir, sub))]) && Done(s, w, steps[o + Position(KSetGo(dir, sub))]);
  }

  /** When every step of a full procedure is done, all six paths are in agreement. */
  lemma PathsDone(s: Session, w: World, steps: seq<Step>, o: nat)
    requires Fits(s, w.rp) && Ordered(steps, o) && o + 15 <= |steps|
    requires forall k | 0 <= k < |steps| :: Done(s, w, steps[k])
    ensures w.rp.streams[s.i].Selects(s.ks)
    ensures forall dir, sub :: Agrees(w, s.i, s.ks, dir, sub) && Active(w.dev, dir, sub, s.ks)
  {
    PlaceOf(steps, o, Select);
    assert Done(s, w, steps[o + SELECT_POSITION]);
    forall dir, sub ensures Agrees(w, s.i, s.ks, dir, sub) && Active(w.dev, dir, sub, s.ks) {
      PathDone(s, w, steps, o, dir, sub);
    }
  }

  predicate Enabled(w: World, i: nat) {
    i < |w.rp.streams| && w.rp.streams[i].Enabled() && w.rpEnabled && w.dev.enabled
  }

  lemma {:induction false} StaysEnabled(s: Session, w0: World, steps: seq<Step>, replies: seq<Reply>, n: nat)
    requires Fits(s, w0.rp) && n <= |steps| && n <= |replies| && Enabled(w0, s.i)
    ensures Enabled(Exec(s, w0, steps, replies, n).w, s.i)
  {
    if n > 0 {
      StaysEnabled(s, w0, steps, replies, n - 1);
      var run := Exec(s, w0, steps, replies, n - 1);
      StepFrame(s, run.w, steps[n - 1], replies[n - 1]);
    }
  }

  /** A complete switch moves the stream to the new key set, in agreement on all six paths. */
  lemma SwitchAgrees(s: Session, t: nat, w0: World, replies: seq<Reply>, cur: KeySet)
    requires Agreement(w0, s.i, cur) && Guarded(s, t, w0.rp) && |SwitchSteps(false)| <= |replies|
    ensures Fits(s, w0.rp)
    ensures var run := Exec(s, w0, SwitchSteps(false), replies, |SwitchSteps(false)|);
      run.ok ==> Agreement(run.w, s.i, s.ks)
  {
    var steps := SwitchSteps(false);
    GuardedFits(s, t, w0.rp);
    ProcedureSteps(false);
    if Exec(s, w0, steps, replies, |steps|).ok {
      OrderedNoRepeats(steps, 0);
      ExecDone(s, w0, steps, replies, |steps|);
      PathsDone(s, Exec(s, w0, steps, replies, |steps|).w, steps, 0);
      StaysEnabled(s, w0, steps, replies, |steps|);
      ExecBetween(s, t, w0, steps, 0, replies, |steps|);
    }
  }

  /** A complete setup brings the stream up in agreement on all six paths. */
  lemma SetupAgrees(s: Session, t: nat, w0: World, replies: seq<Reply>)
    requires Start(s, t, w0.rp) && |SetupSteps(false)| <= |replies|
    ensures Fits(s, w0.rp)
    ensures var run := Exec(s, w0, SetupSteps(false), replies, |SetupSteps(false)|);
      run.ok ==> Agreement(run.w, s.i, s.ks)
  {
    var steps := SetupSteps(false);
    GuardedFits(s, t, w0.rp);
    ProcedureSteps(false);
    if Exec(s, w0, steps, replies, |steps|).ok {
      OrderedNoRepeats(steps, 1);
      ExecDone(s, w0, steps, replies, |steps|);
      PathsDone(s, Exec(s, w0, steps, replies, |steps|).w, steps, 1);
      assert steps[16] == EnableDevice && steps[17] == EnableRootPort;
      assert Done(s, Exec(s, w0, steps, replies, |steps|).w, steps[16]) &&
        Done(s, Exec(s, w0, steps, replies, |steps|).w, steps[17]);
      ExecBetween(s, t, w0, steps, 1, replies, |steps|);
    }
  }
}
