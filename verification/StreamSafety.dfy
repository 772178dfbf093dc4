/** Safety of several streams on one root port: the enabled ones keep disjoint slot
    triples, and no step of a setup or a switch, of any stream and whatever the device
    answers, touches the keys that an enabled stream uses. */
module StreamSafety {
  import opened Words
  import opened Kcbar
  import opened SlotAlloc
  import opened KeyProtocol
  import opened Veil

  /** The triple of an enabled stream, read off its Tx indices. */
  function TripleOf(st: Stream): nat { TxSlot(st, PR) / SUB_STREAMS }

  /** The selected key set names one aligned triple, the same for both directions. */
  predicate WellPlaced(rp: RootPort, st: Stream) {
    && HasSelection(st)
    && TripleOf(st) < |rp.tx| / SUB_STREAMS
    && forall dir, sub :: SlotIndex(st.Indices(dir, Selected(st)), sub) == SUB_STREAMS * TripleOf(st) + sub.Index()
  }

  /** Slot counts the allocator can serve: whole triples, and no fewer Rx than Tx slots. */
  predicate GoodCounts(rp: RootPort) {
    |rp.tx| % SUB_STREAMS == 0 && |rp.tx| <= |rp.rx| && |rp.tx| <= 0x400
  }

  predicate Disjoint(rp: RootPort) {
    && GoodCounts(rp)
    && (forall j | 0 <= j < |rp.streams| && rp.streams[j].Enabled() :: WellPlaced(rp, rp.streams[j]))
    && (forall j, k | 0 <= j < k < |rp.streams| && rp.streams[j].Enabled() && rp.streams[k].Enabled() ::
          TripleOf(rp.streams[j]) != TripleOf(rp.streams[k]))
  }

  lemma DisjointIsScannable(rp: RootPort)
    requires Disjoint(rp)
    ensures Scannable(rp)
    ensures forall j | 0 <= j < |rp.streams| && rp.streams[j].Enabled() ::
      UsedBy(rp.streams[j], TripleOf(rp.streams[j]))
  {
    forall j | 0 <= j < |rp.streams| && rp.streams[j].Enabled()
      ensures forall sub :: TxSlot(rp.streams[j], sub) == SUB_STREAMS * TripleOf(rp.streams[j]) + sub.Index()
    {
    }
  }

  /** All that the traffic of an enabled stream depends on: its selection, the two index
      registers of the selected key set, and the slots they name. */
  datatype Live = Live(select: nat, txIndices: u32, rxIndices: u32, slots: seq<Slot>)

  function LiveOf(rp: RootPort, j: nat): Live
    requires GoodCounts(rp) && j < |rp.streams| && WellPlaced(rp, rp.streams[j])
  {
    var st := rp.streams[j];
    var n := SUB_STREAMS * TripleOf(st);
    Live(st.txCtrl % 4, st.Indices(RX, Selected(st)), st.Indices(TX, Selected(st)),
         rp.tx[n..n + SUB_STREAMS] + rp.rx[n..n + SUB_STREAMS])
  }

  /** The state a step changes from: the session programs a key set that is not in use, into a
      triple that no enabled stream uses. */
  predicate Guarded(s: Session, t: nat, rp: RootPort) {
    && s.i < |rp.streams| && t < |rp.tx| / SUB_STREAMS && t < 0x1000 && s.ids == Triple(t)
    && !Used(rp, t)
    && (rp.streams[s.i].Enabled() ==> !rp.streams[s.i].Selects(s.ks))
  }

  /** Enabled streams stay enabled with the same live keys. */
  predicate KeepsLive(rp: RootPort, rp': RootPort, j: nat)
    requires GoodCounts(rp) && j < |rp.streams|
  {
    rp.streams[j].Enabled() && WellPlaced(rp, rp.streams[j]) ==>
      && |rp'.streams| == |rp.streams| && GoodCounts(rp')
      && rp'.streams[j].Enabled() && WellPlaced(rp', rp'.streams[j])
      && LiveOf(rp', j) == LiveOf(rp, j)
  }

  lemma GuardedFits(s: Session, t: nat, rp: RootPort)
    requires GoodCounts(rp) && Guarded(s, t, rp)
    ensures Fits(s, rp) && DistinctIds(s.ids)
  {
  }

  /** A stream keeps its live keys when its enable, its selection, the indices of the selected
      key set and the slots of its triple stay. */
  lemma LiveKept(rp: RootPort, rp': RootPort, j: nat)
    requires GoodCounts(rp) && j < |rp.streams| && WellPlaced(rp, rp.streams[j]) && rp.streams[j].Enabled()
    requires |rp'.streams| == |rp.streams| && |rp'.tx| == |rp.tx| && |rp'.rx| == |rp.rx|
    requires rp'.streams[j].Enabled() && rp'.streams[j].txCtrl % 4 == rp.streams[j].txCtrl % 4
    requires var ks := Selected(rp.streams[j]);
      forall dir :: rp'.streams[j].Indices(dir, ks) == rp.streams[j].Indices(dir, ks)
    requires var n := SUB_STREAMS * TripleOf(rp.streams[j]);
      forall k | n <= k < n + SUB_STREAMS :: rp'.tx[k] == rp.tx[k] && rp'.rx[k] == rp.rx[k]
    ensures KeepsLive(rp, rp', j)
  {
    var st, st' := rp.streams[j], rp'.streams[j];
    assert Selected(st') == Selected(st) && HasSelection(st');
    assert TripleOf(st') == TripleOf(st);
    forall dir, sub
      ensures SlotIndex(st'.Indices(dir, Selected(st')), sub) == SUB_STREAMS * TripleOf(st') + sub.Index()
    {
      assert SlotIndex(st.Indices(dir, Selected(st)), sub) == SUB_STREAMS * TripleOf(st) + sub.Index();
    }
    var n := SUB_STREAMS * TripleOf(st);
    assert rp'.tx[n..n + SUB_STREAMS] == rp.tx[n..n + SUB_STREAMS];
    assert rp'.rx[n..n + SUB_STREAMS] == rp.rx[n..n + SUB_STREAMS];
  }

  /** A session's triple is not the triple of any enabled stream. */
  lemma TriplesApart(s: Session, t: nat, rp: RootPort, j: nat)
    requires Disjoint(rp) && Guarded(s, t, rp) && j < |rp.streams| && rp.streams[j].Enabled()
    ensures TripleOf(rp.streams[j]) != t
    ensures j == s.i ==> Selected(rp.streams[j]) != s.ks
  {
    DisjointIsScannable(rp);
  }

  /** Programming a key, successful or not, keeps the live keys of every enabled stream. */
  lemma KeyProgSafe(s: Session, t: nat, w: World, st: Step, r: Reply, j: nat)
    requires Disjoint(w.rp) && Guarded(s, t, w.rp) && Fits(s, w.rp) && st.KeyProg?
    requires j < |w.rp.streams| && w.rp.streams[j].Enabled()
    ensures KeepsLive(w.rp, DoStep(s, w, st, r).w.rp, j)
  {
    var rp, rp' := w.rp, DoStep(s, w, st, r).w.rp;
    TriplesApart(s, t, rp, j);
    var n := s.ids.Id(st.dir, st.sub);
    assert n < SUB_STREAMS * TripleOf(rp.streams[j]) || SUB_STREAMS * TripleOf(rp.streams[j]) + SUB_STREAMS <= n;
    LiveKept(rp, rp', j);
  }

  /** So does every other step but the selection of the session's own stream. */
  lemma StepSafe(s: Session, t: nat, w: World, st: Step, r: Reply, j: nat)
    requires Disjoint(w.rp) && Fits(s, w.rp) && j < |w.rp.streams| && w.rp.streams[j].Enabled()
    requires st.KeyProg? ==> Guarded(s, t, w.rp)
    requires j == s.i ==> st != Select
    ensures KeepsLive(w.rp, DoStep(s, w, st, r).w.rp, j)
  {
    var own := w.rp.streams[s.i];
    match st
    case KeyProg(_, _) => KeyProgSafe(s, t, w, st, r, j);
    case PrimeKeys(dir) =>
      PrimeFields(own.txCtrl, s.ks);
      LiveKept(w.rp, DoStep(s, w, st, r).w.rp, j);
    case _ => LiveKept(w.rp, DoStep(s, w, st, r).w.rp, j);
  }

  /** The key set a successful programming leaves behind is the session's triple. */
  lemma ProgrammedTriple(s: Session, t: nat, w: World)
    requires Fits(s, w.rp) && t < |w.rp.tx| / SUB_STREAMS && t < 0x1000 && s.ids == Triple(t)
    requires forall dir, sub :: Done(s, w, KeyProg(dir, sub))
    requires w.rp.streams[s.i].Selects(s.ks)
    ensures WellPlaced(w.rp, w.rp.streams[s.i]) && TripleOf(w.rp.streams[s.i]) == t
  {
    var own := w.rp.streams[s.i];
    assert Selected(own) == s.ks;
    assert Done(s, w, KeyProg(RX, PR)) && Triple(t).Id(RX, PR) == SUB_STREAMS * t;
    forall dir, sub ensures SlotIndex(own.Indices(dir, Selected(own)), sub) == SUB_STREAMS * t + sub.Index() {
      assert Done(s, w, KeyProg(dir, sub));
      assert Triple(t).Id(dir, sub) == SUB_STREAMS * t + sub.Index();
    }
  }

  /** No enabled stream but `i` uses triple `t`. */
  predicate FreeForOthers(rp: RootPort, i: nat, t: nat) {
    forall j | 0 <= j < |rp.streams| && j != i && rp.streams[j].Enabled() :: TripleOf(rp.streams[j]) != t
  }

  /** Streams other than `i` stay as they are. */
  predicate OthersKept(rp: RootPort, rp': RootPort, i: nat) {
    && |rp'.streams| == |rp.streams|
    && forall j | 0 <= j < |rp.streams| && j != i :: rp'.streams[j] == rp.streams[j]
  }

  lemma StepKeepsOthers(s: Session, w: World, st: Step, r: Reply)
    requires Fits(s, w.rp)
    ensures OthersKept(w.rp, DoStep(s, w, st, r).w.rp, s.i)
  {
  }

  /** Placing one stream on a triple that the others do not use keeps all triples disjoint. */
  lemma PlacedKeepsDisjoint(rp: RootPort, rp': RootPort, i: nat, t: nat)
    requires Disjoint(rp) && OthersKept(rp, rp', i) && i < |rp.streams| && FreeForOthers(rp, i, t)
    requires rp'.tx == rp.tx && rp'.rx == rp.rx
    requires rp'.streams[i].Enabled() ==> WellPlaced(rp', rp'.streams[i]) && TripleOf(rp'.streams[i]) == t
    ensures Disjoint(rp')
  {
  }

  /** Steps that keep the live keys of all enabled streams and enable none keep them disjoint. */
  lemma LiveKeepsDisjoint(rp: RootPort, rp': RootPort)
    requires Disjoint(rp) && |rp'.streams| == |rp.streams| && GoodCounts(rp')
    requires forall j | 0 <= j < |rp.streams| && rp.streams[j].Enabled() :: KeepsLive(rp, rp', j)
    requires forall j | 0 <= j < |rp.streams| :: rp'.streams[j].Enabled() ==> rp.streams[j].Enabled()
    ensures Disjoint(rp')
  {
    forall j | 0 <= j < |rp.streams| && rp.streams[j].Enabled()
      ensures TripleOf(rp'.streams[j]) == TripleOf(rp.streams[j])
    {
      assert LiveOf(rp', j) == LiveOf(rp, j);
    }
  }

  /** What a step needs so that all triples stay disjoint. */
  predicate StepGuard(s: Session, t: nat, w: World, st: Step)
    requires Fits(s, w.rp)
  {
    && (st.KeyProg? ==> Guarded(s, t, w.rp))
    && (st.Select? || st.EnableRootPort? ==>
          t < |w.rp.tx| / SUB_STREAMS && t < 0x1000 && s.ids == Triple(t) && FreeForOthers(w.rp, s.i, t)
          && forall dir, sub :: Done(s, w, KeyProg(dir, sub)))
    && (st.EnableRootPort? ==> Done(s, w, Select))
  }

  lemma StepKeepsDisjoint(s: Session, t: nat, w: World, st: Step, r: Reply)
    requires Disjoint(w.rp) && Fits(s, w.rp) && StepGuard(s, t, w, st)
    ensures Disjoint(DoStep(s, w, st, r).w.rp)
  {
    var w' := DoStep(s, w, st, r).w;
    if st.Select? || st.EnableRootPort? {
      StepDone(s, w, st, r);
      forall dir, sub ensures Done(s, w', KeyProg(dir, sub)) {
        assert Done(s, w, KeyProg(dir, sub));
        SelectFields(w.rp.streams[s.i].txCtrl, s.ks);
      }
      ProgrammedTriple(s, t, w');
      StepKeepsOthers(s, w, st, r);
      PlacedKeepsDisjoint(w.rp, w'.rp, s.i, t);
    } else {
      forall j | 0 <= j < |w.rp.streams| && w.rp.streams[j].Enabled() ensures KeepsLive(w.rp, w'.rp, j) {
        StepSafe(s, t, w, st, r, j);
      }
      LiveKeepsDisjoint(w.rp, w'.rp);
    }
  }

  // ------------------------------------------------------------ whole runs of one session

  /** Before the selection nothing a step does takes the session's triple or selects its key set. */
  lemma StepKeepsGuard(s: Session, t: nat, w: World, st: Step, r: Reply)
    requires Disjoint(w.rp) && Guarded(s, t, w.rp) && Fits(s, w.rp)
    requires !st.Select? && !st.EnableRootPort?
    ensures Guarded(s, t, DoStep(s, w, st, r).w.rp)
  {
    var rp, rp' := w.rp, DoStep(s, w, st, r).w.rp;
    if st.KeyProg? || st.PrimeKeys? {
      OtherFieldsKept(s, w, st, r);
    }
    forall j | 0 <= j < |rp.streams| && rp.streams[j].Enabled() ensures !UsedBy(rp'.streams[j], t) {
      StepSafe(s, t, w, st, r, j);
      assert LiveOf(rp', j) == LiveOf(rp, j);
      TriplesApart(s, t, rp, j);
    }
  }

  predicate Start(s: Session, t: nat, rp: RootPort) { Disjoint(rp) && Guarded(s, t, rp) }

  lemma GuardedIsFree(s: Session, t: nat, rp: RootPort)
    requires Start(s, t, rp)
    ensures FreeForOthers(rp, s.i, t)
  {
    DisjointIsScannable(rp);
  }

  /** What holds between two steps of a run; `before` says that the selection is still to come. */
  predicate Between(s: Session, t: nat, w0: World, w: World, before: bool) {
    && Disjoint(w.rp) && OthersKept(w0.rp, w.rp, s.i) && |w.rp.tx| == |w0.rp.tx|
    && (before ==> Guarded(s, t, w.rp))
  }

  lemma OneStep(s: Session, t: nat, w0: World, w: World, st: Step, r: Reply, before: bool)
    requires Fits(s, w.rp) && StepGuard(s, t, w, st)
    requires Between(s, t, w0, w, before)
    ensures Between(s, t, w0, DoStep(s, w, st, r).w, before && !st.Select? && !st.EnableRootPort?)
  {
    StepKeepsDisjoint(s, t, w, st, r);
    StepKeepsOthers(s, w, st, r);
    if before && !st.Select? && !st.EnableRootPort? {
      StepKeepsGuard(s, t, w, st, r);
    }
  }

  predicate BeforeSelect(o: nat, n: nat) { n <= o + SELECT_POSITION }

  lemma SelectPlace(steps: seq<Step>, o: nat, n: nat)
    requires Ordered(steps, o) && n < |steps|
    ensures steps[n].KeyProg? ==> BeforeSelect(o, n)
    ensures BeforeSelect(o, n + 1) ==> BeforeSelect(o, n) && !steps[n].Select? && !steps[n].EnableRootPort?
  {
  }

  lemma StillFree(rp: RootPort, rp': RootPort, i: nat, t: nat)
    requires OthersKept(rp, rp', i) && FreeForOthers(rp, i, t)
    ensures FreeForOthers(rp', i, t)
  {
  }

  lemma GuardHolds(s: Session, t: nat, w0: World, steps: seq<Step>, o: nat, replies: seq<Reply>, n: nat)
    requires Start(s, t, w0.rp) && Fits(s, w0.rp) && DistinctIds(s.ids) && Ordered(steps, o)
    requires n < |steps| && n < |replies| && Exec(s, w0, steps, replies, n).ok
    requires Between(s, t, w0, Exec(s, w0, steps, replies, n).w, BeforeSelect(o, n))
    ensures StepGuard(s, t, Exec(s, w0, steps, replies, n).w, steps[n])
  {
    SelectPlace(steps, o, n);
    if steps[n].Select? || steps[n].EnableRootPort? {
      KeysDone(s, w0, steps, o, replies, n);
      GuardedIsFree(s, t, w0.rp);
      StillFree(w0.rp, Exec(s, w0, steps, replies, n).w.rp, s.i, t);
    }
  }

  lemma NextBetween(s: Session, t: nat, w0: World, steps: seq<Step>, o: nat, replies: seq<Reply>, n: nat)
    requires Start(s, t, w0.rp) && Fits(s, w0.rp) && DistinctIds(s.ids) && Ordered(steps, o)
    requires n < |steps| && n < |replies| && Exec(s, w0, steps, replies, n).ok
    requires Between(s, t, w0, Exec(s, w0, steps, replies, n).w, BeforeSelect(o, n))
    ensures Between(s, t, w0, DoStep(s, Exec(s, w0, steps, replies, n).w, steps[n], replies[n]).w,
      BeforeSelect(o, n + 1))
  {
    var w := Exec(s, w0, steps, replies, n).w;
    GuardHolds(s, t, w0, steps, o, replies, n);
    SelectPlace(steps, o, n);
    OneStep(s, t, w0, w, steps[n], replies[n], BeforeSelect(o, n));
    WeakerBetween(s, t, w0, DoStep(s, w, steps[n], replies[n]).w,
      BeforeSelect(o, n) && !steps[n].Select? && !steps[n].EnableRootPort?, BeforeSelect(o, n + 1));
  }

  lemma WeakerBetween(s: Session, t: nat, w0: World, w: World, a: bool, b: bool)
    requires Between(s, t, w0, w, a) && (b ==> a)
    ensures Between(s, t, w0, w, b)
  {
  }

  /** `Between` after the first `n` steps.  Veiled, because unfolding the runs of both `n` and `n + 1` steps at
      once swamps the induction. */
  ghost predicate BetweenAt(s: Session, t: nat, w0: World, steps: seq<Step>, o: nat, replies: seq<Reply>, n: nat)
    requires Fits(s, w0.rp) && n <= |steps| && n <= |replies|
  {
    forall d: nat {:trigger Look(d)} | Look(d) ::
      var run := Exec(s, w0, steps, replies, n); Between(s, t, w0, run.w, run.ok && BeforeSelect(o, n))
  }

  lemma AtFirst(s: Session, t: nat, w0: World, steps: seq<Step>, o: nat, replies: seq<Reply>)
    requires Start(s, t, w0.rp) && Fits(s, w0.rp)
    ensures BetweenAt(s, t, w0, steps, o, replies, 0)
  {
  }

  lemma AtNext(s: Session, t: nat, w0: World, steps: seq<Step>, o: nat, replies: seq<Reply>, n: nat)
    requires Start(s, t, w0.rp) && Fits(s, w0.rp) && DistinctIds(s.ids) && Ordered(steps, o)
    requires n < |steps| && n < |replies| && BetweenAt(s, t, w0, steps, o, replies, n)
    ensures BetweenAt(s, t, w0, steps, o, replies, n + 1)
  {
    assert Look(0);
    if Exec(s, w0, steps, replies, n).ok {
      var next := Exec(s, w0, steps, replies, n + 1);
      NextBetween(s, t, w0, steps, o, replies, n);
      WeakerBetween(s, t, w0, next.w, BeforeSelect(o, n + 1), next.ok && BeforeSelect(o, n + 1));
    }
  }

  lemma {:induction false} AlwaysBetween(s: Session, t: nat, w0: World, steps: seq<Step>, o: nat,
                                        replies: seq<Reply>, n: nat)
    requires Start(s, t, w0.rp) && Fits(s, w0.rp) && DistinctIds(s.ids) && Ordered(steps, o)
    requires n <= |steps| && n <= |replies|
    ensures BetweenAt(s, t, w0, steps, o, replies, n)
  {
    if n == 0 {
      AtFirst(s, t, w0, steps, o, replies);
    } else {
      AlwaysBetween(s, t, w0, steps, o, replies, n - 1);
      AtNext(s, t, w0, steps, o, replies, n - 1);
    }
  }

  lemma ExecBetween(s: Session, t: nat, w0: World, steps: seq<Step>, o: nat, replies: seq<Reply>, n: nat)
    requires Start(s, t, w0.rp) && Fits(s, w0.rp) && DistinctIds(s.ids) && Ordered(steps, o)
    requires n <= |steps| && n <= |replies|
    ensures var run := Exec(s, w0, steps, replies, n); Between(s, t, w0, run.w, run.ok && BeforeSelect(o, n))
  {
    AlwaysBetween(s, t, w0, steps, o, replies, n);
    assert Look(0);
  }

  /** Safety of every step of a setup or a switch, on every run: the enabled streams' triples are
      disjoint before and after it, and the live keys of every enabled stream stay as they are, but
      for the one step that moves the session's own selection. */
  lemma RunSafe(s: Session, t: nat, w0: World, steps: seq<Step>, o: nat, replies: seq<Reply>, n: nat)
    requires Start(s, t, w0.rp) && Ordered(steps, o) && n < |steps| && n < |replies|
    ensures Fits(s, w0.rp)
    ensures var rp := Exec(s, w0, steps, replies, n).w.rp; var rp' := Exec(s, w0, steps, replies, n + 1).w.rp;
      && Disjoint(rp) && Disjoint(rp')
      && forall j | 0 <= j < |rp.streams| && rp.streams[j].Enabled() ::
           KeepsLive(rp, rp', j) || (j == s.i && steps[n] == Select)
  {
    GuardedFits(s, t, w0.rp);
    ExecBetween(s, t, w0, steps, o, replies, n);
    ExecBetween(s, t, w0, steps, o, replies, n + 1);
    var run := Exec(s, w0, steps, replies, n);
    if run.ok {
      GuardHolds(s, t, w0, steps, o, replies, n);
      forall j | 0 <= j < |run.w.rp.streams| && run.w.rp.streams[j].Enabled() && !(j == s.i && steps[n] == Select)
        ensures KeepsLive(run.w.rp, Exec(s, w0, steps, replies, n + 1).w.rp, j)
      {
        StepSafe(s, t, run.w, steps[n], replies[n], j);
      }
    }
  }

  // ------------------------------------------------------------ a triple allocated earlier

  lemma {:induction false} ExecOthers(s: Session, w: World, steps: seq<Step>, replies: seq<Reply>, n: nat)
    requires Fits(s, w.rp) && n <= |steps| && n <= |replies|
    ensures var rp := Exec(s, w, steps, replies, n).w.rp;
      OthersKept(w.rp, rp, s.i) && |rp.tx| == |w.rp.tx| && |rp.rx| == |w.rp.rx|
  {
    if n > 0 {
      ExecOthers(s, w, steps, replies, n - 1);
      var before := Exec(s, w, steps, replies, n - 1);
      StepKeepsOthers(s, before.w, steps[n - 1], replies[n - 1]);
    }
  }

  /** A stream transmits with `ks`, and both index registers of that key set name the slots of triple `t`. */
  predicate KeySetOn(st: Stream, ks: KeySet, t: nat) {
    && st.txCtrl % 4 == (if ks == KS0 then 1 else 2)
    && forall sub: SubStream ::
        && SlotIndex(if ks == KS0 then st.tx0 else st.tx1, sub) == 3 * t + sub.Index()
        && SlotIndex(if ks == KS0 then st.rx0 else st.rx1, sub) == 3 * t + sub.Index()
  }

  lemma KeySetIndices(st: Stream, ks: KeySet, t: nat)
    requires st.Selects(ks)
    requires forall dir, sub :: SlotIndex(st.Indices(dir, ks), sub) == SUB_STREAMS * t + sub.Index()
    ensures KeySetOn(st, ks, t)
  {
    forall sub: SubStream
      ensures SlotIndex(if ks == KS0 then st.tx0 else st.tx1, sub) == 3 * t + sub.Index()
      ensures SlotIndex(if ks == KS0 then st.rx0 else st.rx1, sub) == 3 * t + sub.Index()
    {
      assert SlotIndex(st.Indices(RX, ks), sub) == SUB_STREAMS * t + sub.Index();
      assert SlotIndex(st.Indices(TX, ks), sub) == SUB_STREAMS * t + sub.Index();
    }
  }

  /** After a complete setup the stream is enabled on its triple. */
  lemma SetupPlaces(s: Session, t: nat, w: World, replies: seq<Reply>)
    requires Fits(s, w.rp) && t < |w.rp.tx| / SUB_STREAMS && t < 0x1000 && s.ids == Triple(t)
    requires |SetupSteps(false)| <= |replies| && Exec(s, w, SetupSteps(false), replies, |SetupSteps(false)|).ok
    ensures var rp := Exec(s, w, SetupSteps(false), replies, |SetupSteps(false)|).w.rp;
      rp.streams[s.i].Enabled() && WellPlaced(rp, rp.streams[s.i]) && TripleOf(rp.streams[s.i]) == t &&
      KeySetOn(rp.streams[s.i], s.ks, t)
  {
    var steps := SetupSteps(false);
    var w' := Exec(s, w, steps, replies, |steps|).w;
    ProcedureSteps(false);
    OrderedNoRepeats(steps, 1);
    ExecDone(s, w, steps, replies, |steps|);
    ExecOthers(s, w, steps, replies, |steps|);
    forall st: Step | Position(st) < 15 ensures Done(s, w', st) {
      PlaceOf(steps, 1, st);
    }
    assert steps[17] == EnableRootPort;
    assert Done(s, w', steps[17]) && Done(s, w', Select);
    ProgrammedTriple(s, t, w');
    KeySetIndices(w'.rp.streams[s.i], s.ks, t);
  }

  /** ... and after a complete switch, on the other key set. */
  lemma SwitchPlaces(s: Session, t: nat, w: World, replies: seq<Reply>)
    requires Fits(s, w.rp) && t < |w.rp.tx| / SUB_STREAMS && t < 0x1000 && s.ids == Triple(t)
    requires |SwitchSteps(false)| <= |replies| && Exec(s, w, SwitchSteps(false), replies, |SwitchSteps(false)|).ok
    ensures KeySetOn(Exec(s, w, SwitchSteps(false), replies, |SwitchSteps(false)|).w.rp.streams[s.i], s.ks, t)
  {
    var steps := SwitchSteps(false);
    var w' := Exec(s, w, steps, replies, |steps|).w;
    ProcedureSteps(false);
    OrderedNoRepeats(steps, 0);
    ExecDone(s, w, steps, replies, |steps|);
    forall st: Step | Position(st) < 15 ensures Done(s, w', st) {
      PlaceOf(steps, 0, st);
    }
    assert Done(s, w', Select);
    forall dir, sub ensures SlotIndex(w'.rp.streams[s.i].Indices(dir, s.ks), sub) == SUB_STREAMS * t + sub.Index() {
      assert Done(s, w', KeyProg(dir, sub));
      assert Triple(t).Id(dir, sub) == SUB_STREAMS * t + sub.Index();
    }
    KeySetIndices(w'.rp.streams[s.i], s.ks, t);
  }

  /** A setup uses the triple that was allocated when the port was opened.  A complete setup of a
      disabled stream leaves the triples disjoint if and only if no other stream has taken that
      triple in the meantime; the library does not check this again. */
  lemma SetupSafeExactlyWhenFree(s: Session, t: nat, w: World, replies: seq<Reply>)
    requires Disjoint(w.rp) && s.i < |w.rp.streams| && !w.rp.streams[s.i].Enabled()
    requires t < |w.rp.tx| / SUB_STREAMS && t < 0x1000 && s.ids == Triple(t) && Fits(s, w.rp)
    requires |SetupSteps(false)| <= |replies| && Exec(s, w, SetupSteps(false), replies, |SetupSteps(false)|).ok
    ensures Disjoint(Exec(s, w, SetupSteps(false), replies, |SetupSteps(false)|).w.rp) <==> FreeForOthers(w.rp, s.i, t)
  {
    var steps := SetupSteps(false);
    var rp := Exec(s, w, steps, replies, |steps|).w.rp;
    ProcedureSteps(false);
    SetupPlaces(s, t, w, replies);
    ExecOthers(s, w, steps, replies, |steps|);
    if FreeForOthers(w.rp, s.i, t) {
      DisjointIsScannable(w.rp);
      assert DistinctIds(s.ids);
      ExecBetween(s, t, w, steps, 1, replies, |steps|);
    } else {
      var j :| 0 <= j < |w.rp.streams| && j != s.i && w.rp.streams[j].Enabled() && TripleOf(w.rp.streams[j]) == t;
      assert rp.streams[j] == w.rp.streams[j];
    }
  }
}
