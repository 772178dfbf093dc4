/** The key refresh test: a stream is set up once and then switched between its two key
    sets as often as the operator asks.  While slots are short the operator is asked to
    close other streams; what they do meanwhile is an input. */
module KeyRefresh {
  import opened Words
  import opened Kcbar
  import opened SlotAlloc
  import opened KeyProtocol
  import opened StreamSafety
  import opened KeyAgreement
  import opened KeyManager
  import opened Veil

  /** What the operator does when there are no free slots: give up, or close other streams. */
  datatype KeyPress = Quit | Again(closed: seq<nat>)

  /** One turn of the refresh loop: stop, or refresh (with the waiting and the replies it meets). */
  datatype Command = Stop | Refresh(presses: seq<KeyPress>, replies: seq<Reply>)

  /** The listed streams exist. */
  predicate Exist(closed: seq<nat>, rp: RootPort) { forall k | 0 <= k < |closed| :: closed[k] < |rp.streams| }

  /** ... and stream `i` is not among them. */
  predicate OtherStreams(closed: seq<nat>, rp: RootPort, i: nat) {
    Exist(closed, rp) && forall k | 0 <= k < |closed| :: closed[k] != i
  }

  /** The root port after the listed streams were disabled. */
  function CloseAll(rp: RootPort, closed: seq<nat>): (r: RootPort)
    requires Exist(closed, rp)
    ensures |r.streams| == |rp.streams| && r.tx == rp.tx && r.rx == rp.rx
  {
    if closed == [] then rp
    else SetEnable(CloseAll(rp, closed[..|closed| - 1]), closed[|closed| - 1], false)
  }

  /** Exactly the listed streams are disabled by it. */
  lemma {:induction false} ClosedExactly(rp: RootPort, closed: seq<nat>, j: nat)
    requires Exist(closed, rp) && j < |rp.streams|
    ensures CloseAll(rp, closed).streams[j].Enabled() <==> rp.streams[j].Enabled() && j !in closed
    ensures j !in closed ==> CloseAll(rp, closed).streams[j] == rp.streams[j]
  {
    if closed != [] {
      var n := |closed| - 1;
      assert closed == closed[..n] + [closed[n]];
      ClosedExactly(rp, closed[..n], j);
    }
  }

  /** Closing others leaves stream `i` alone and cannot make two triples collide. */
  lemma {:induction false} CloseKeepsDisjoint(rp: RootPort, closed: seq<nat>, i: nat)
    requires Disjoint(rp) && i < |rp.streams|
    requires OtherStreams(closed, rp, i)
    ensures Disjoint(CloseAll(rp, closed)) && CloseAll(rp, closed).streams[i] == rp.streams[i]
    ensures forall j | 0 <= j < |rp.streams| && CloseAll(rp, closed).streams[j].Enabled() ::
      CloseAll(rp, closed).streams[j] == rp.streams[j]
  {
    if closed != [] {
      CloseKeepsDisjoint(rp, closed[..|closed| - 1], i);
      var before := CloseAll(rp, closed[..|closed| - 1]);
      var j := closed[|closed| - 1];
      assert !CloseAll(rp, closed).streams[j].Enabled();
      assert OthersKept(before, CloseAll(rp, closed), j);
    }
  }

  lemma {:induction false} CloseAllAppend(rp: RootPort, a: seq<nat>, b: seq<nat>)
    requires Exist(a, rp) && Exist(b, rp)
    ensures Exist(a + b, rp) && CloseAll(rp, a + b) == CloseAll(CloseAll(rp, a), b)
  {
    if b == [] {
      assert a + b == a;
    } else {
      assert (a + b)[..|a + b| - 1] == a + b[..|b| - 1];
      CloseAllAppend(rp, a, b[..|b| - 1]);
    }
  }

  lemma CloseKeepsAgreement(w: World, closed: seq<nat>, i: nat, ks: KeySet)
    requires Agreement(w, i, ks)
    requires OtherStreams(closed, w.rp, i)
    ensures Agreement(w.(rp := CloseAll(w.rp, closed)), i, ks)
  {
    CloseKeepsDisjoint(w.rp, closed, i);
    var w' := w.(rp := CloseAll(w.rp, closed));
    forall dir, sub ensures Agrees(w', i, ks, dir, sub) && Active(w'.dev, dir, sub, ks) {
      assert Agrees(w, i, ks, dir, sub) && Active(w.dev, dir, sub, ks);
    }
  }

  /** `n` refreshes alternate between the two key sets. */
  function Flipped(ks: KeySet, n: nat): KeySet { if n == 0 then ks else Flipped(ks, n - 1).Other() }

  lemma {:induction false} FlippedParity(ks: KeySet, n: nat)
    ensures Flipped(ks, n) == if n % 2 == 0 then ks else ks.Other()
  {
    if n > 0 {
      FlippedParity(ks, n - 1);
    }
  }

  lemma DisabledKeepsDisjoint(rp: RootPort, i: nat)
    requires Disjoint(rp) && i < |rp.streams|
    ensures Disjoint(SetEnable(rp, i, false)) && OthersKept(rp, SetEnable(rp, i, false), i)
    ensures !SetEnable(rp, i, false).streams[i].Enabled()
  {
  }

  /** Every path of the device uses one of the two key sets. */
  ghost predicate OnEither(dev: Device, ks: KeySet) {
    forall dir, sub :: Active(dev, dir, sub, ks) || Active(dev, dir, sub, ks.Other())
  }

  lemma AgreementOnEither(w: World, i: nat, ks: KeySet)
    requires Agreement(w, i, ks)
    ensures OnEither(w.dev, ks) && forall dir, sub :: Active(w.dev, dir, sub, ks)
  {
    forall dir, sub ensures Active(w.dev, dir, sub, ks) {
      assert Agrees(w, i, ks, dir, sub) && Active(w.dev, dir, sub, ks);
    }
  }

  lemma SwitchOnEither(s: Session, w: World, r: seq<Reply>, cur: KeySet)
    requires Agreement(w, s.i, cur) && s.ks == cur.Other() && |r| == |SwitchSteps(false)| && Fits(s, w.rp)
    ensures OnEither(ExecAll(s, w, SwitchSteps(false), r).w.dev, cur)
  {
    AgreementOnEither(w, s.i, cur);
    forall dir, sub
      ensures var dev := ExecAll(s, w, SwitchSteps(false), r).w.dev;
        Active(dev, dir, sub, cur) || Active(dev, dir, sub, cur.Other())
    {
      OldOrNew(s, w, SwitchSteps(false), r, |r|, dir, sub);
    }
  }

  // ------------------------------------------------------------ K_SET_STOP

  /** What the device still uses after K_SET_STOPs for one key set and the given paths. */
  function Stopped(active: map<Path, KeySet>, paths: set<Path>, ks: KeySet): (r: map<Path, KeySet>)
    ensures forall p :: p in r <==> p in active && !(p in paths && active[p] == ks)
    ensures forall p | p in r :: r[p] == active[p]
  {
    map p | p in active && !(p in paths && active[p] == ks) :: active[p]
  }

  lemma StoppedTwice(active: map<Path, KeySet>, a: set<Path>, b: set<Path>, ks: KeySet)
    ensures Stopped(Stopped(active, a, ks), b, ks) == Stopped(active, a + b, ks)
  {
  }

  function PathsOf(dir: Direction): (r: set<Path>)
    ensures forall p: Path :: p in r <==> p.dir == dir
  {
    assert forall p: Path :: p.sub == PR || p.sub == NPR || p.sub == CPL;
    {Path(dir, PR), Path(dir, NPR), Path(dir, CPL)}
  }

  /** The order of the six stops. */
  function StopPlace(p: Path): nat { (if p.dir == RX then 0 else 3) + p.sub.Index() }

  /** The paths whose stop, and every stop before it, succeeds. */
  function PathsStopped(r: seq<bool>): (res: set<Path>)
    requires |r| == 6
    ensures forall p: Path :: p in res <==> forall k | 0 <= k <= StopPlace(p) :: r[k]
  {
    set p | p in PathsOf(RX) + PathsOf(TX) && forall k | 0 <= k <= StopPlace(p) :: r[k]
  }

  /** ... of one direction. */
  ghost predicate StopsOf(paths: set<Path>, dir: Direction, r: seq<bool>)
    requires |r| == 3
  {
    forall p: Path :: p in paths <==> p in PathsOf(dir) && forall k | 0 <= k <= p.sub.Index() :: r[k]
  }

  lemma StopsJoined(r: seq<bool>, rx: set<Path>, tx: set<Path>)
    requires |r| == 6 && StopsOf(rx, RX, r[..3])
    requires if r[..3] == [true, true, true] then StopsOf(tx, TX, r[3..]) else tx == {}
    ensures rx + tx == PathsStopped(r)
  {
    forall p: Path ensures p in rx + tx <==> p in PathsStopped(r) {
      if p.dir == TX && r[..3] == [true, true, true] {
        assert r[0] && r[1] && r[2] by {
          assert r[0] == r[..3][0] && r[1] == r[..3][1] && r[2] == r[..3][2];
        }
      }
    }
  }

  /** After a switch away from `cur` that failed the test still holds on to `cur`, and its six stops name that
      key set: they miss a path if and only if its K_SET_GO for the new key set was sent and took effect. */
  lemma StopsMissExactly(s: Session, w: World, r: seq<Reply>, cur: KeySet, dir: Direction, sub: SubStream)
    requires Agreement(w, s.i, cur) && s.ks == cur.Other() && |r| == |SwitchSteps(false)| && Fits(s, w.rp)
    ensures var active := ExecAll(s, w, SwitchSteps(false), r).w.dev.active;
      Path(dir, sub) in Stopped(active, PathsOf(RX) + PathsOf(TX), cur) <==>
      exists m :: 0 <= m < |r| && Moved(s, w, SwitchSteps(false), r, m, dir, sub)
  {
    AgreementOnEither(w, s.i, cur);
    MovedExactly(s, w, SwitchSteps(false), r, |r|, dir, sub);
  }

  /** A switch of a running stream, from slots that are free. */
  lemma SwitchSafe(s: Session, t: nat, w: World, r: seq<Reply>, cur: KeySet)
    requires Agreement(w, s.i, cur) && s.ks == cur.Other() && t < 0x1000 && s.ids == Triple(t) && FreeTriple(w.rp, t)
    requires |r| == |SwitchSteps(false)|
    ensures Guarded(s, t, w.rp) && Fits(s, w.rp)
    ensures var run := ExecAll(s, w, SwitchSteps(false), r);
      Disjoint(run.w.rp) && InUseAgrees(run.w, s.i) && OnEither(run.w.dev, cur) &&
        (run.ok ==> Agreement(run.w, s.i, s.ks))
  {
    SwitchOnEither(s, w, r, cur);
    GuardedFits(s, t, w.rp);
    ProcedureSteps(false);
    ExecBetween(s, t, w, SwitchSteps(false), 0, r, |r|);
    SwitchKeepsTraffic(s, t, w, false, r, |r|, cur);
    SwitchAgrees(s, t, w, r, cur);
  }

  // ------------------------------------------------------------ when a switch succeeds

  /** What the allocator needs: a usage map that is wide enough, and a triple that no enabled stream uses. */
  ghost predicate CanAllocate(rp: RootPort) {
    |rp.tx| <= MAP_BITS * SUB_STREAMS && exists t :: FreeTriple(rp, t)
  }

  /** The streams that are closed in answer to the first `k` requests. */
  function ClosedBy(presses: seq<KeyPress>, k: nat): seq<nat>
    requires k <= |presses|
  {
    if k == 0 then [] else ClosedBy(presses, k - 1) + if presses[k - 1].Again? then presses[k - 1].closed else []
  }

  predicate Presses(rp: RootPort, i: nat, presses: seq<KeyPress>) {
    forall k | 0 <= k < |presses| && presses[k].Again? :: OtherStreams(presses[k].closed, rp, i)
  }

  lemma {:induction false} ClosedAreOthers(rp: RootPort, i: nat, presses: seq<KeyPress>, k: nat)
    requires k <= |presses| && Presses(rp, i, presses)
    ensures OtherStreams(ClosedBy(presses, k), rp, i)
  {
    if k > 0 {
      ClosedAreOthers(rp, i, presses, k - 1);
    }
  }

  /** The root port after the first `k` requests to close other streams. */
  function Waited(rp: RootPort, i: nat, presses: seq<KeyPress>, k: nat): (r: RootPort)
    requires k <= |presses| && Presses(rp, i, presses)
    ensures |r.streams| == |rp.streams| && r.tx == rp.tx && r.rx == rp.rx
  {
    ClosedAreOthers(rp, i, presses, k);
    CloseAll(rp, ClosedBy(presses, k))
  }

  /** The allocator finds slots after the first `k` requests.  Veiled, so that talking of several `k` does not
      open the allocator and the closings for each. */
  ghost predicate SlotsAfter(rp: RootPort, i: nat, presses: seq<KeyPress>, k: nat)
    requires k <= |presses| && Presses(rp, i, presses)
  {
    forall d: nat {:trigger Look(d)} | Look(d) :: CanAllocate(Waited(rp, i, presses, k))
  }

  /** There are slots at once, or after some of the requests that come before the operator gives up. */
  ghost predicate SlotsComeFree(rp: RootPort, i: nat, presses: seq<KeyPress>)
    requires Presses(rp, i, presses)
  {
    exists k: nat | k <= |presses| :: (forall j | 0 <= j < k :: presses[j].Again?) && SlotsAfter(rp, i, presses, k)
  }

  /** The operator answered `k` requests by closing streams, and none of the attempts before found slots. */
  ghost predicate InVain(rp: RootPort, i: nat, presses: seq<KeyPress>, k: nat)
    requires Presses(rp, i, presses)
  {
    k <= |presses| && forall j: nat | j < k :: presses[j].Again? && !SlotsAfter(rp, i, presses, j)
  }

  /** The wait ends after `k` requests: slots are there, or the operator gives up. */
  ghost predicate WaitEnds(rp: RootPort, i: nat, presses: seq<KeyPress>, k: nat)
    requires Presses(rp, i, presses)
  {
    && InVain(rp, i, presses, k)
    && (SlotsAfter(rp, i, presses, k) || k == |presses| || presses[k].Quit?)
  }

  lemma WaitedIsDisjoint(rp: RootPort, i: nat, presses: seq<KeyPress>, k: nat)
    requires k <= |presses| && Presses(rp, i, presses) && Disjoint(rp) && i < |rp.streams|
    ensures Disjoint(Waited(rp, i, presses, k)) && Waited(rp, i, presses, k).streams[i] == rp.streams[i]
  {
    ClosedAreOthers(rp, i, presses, k);
    CloseKeepsDisjoint(rp, ClosedBy(presses, k), i);
  }

  lemma OneMorePress(rp: RootPort, i: nat, presses: seq<KeyPress>, k: nat)
    requires Presses(rp, i, presses) && InVain(rp, i, presses, k) && k < |presses| && presses[k].Again?
    requires !SlotsAfter(rp, i, presses, k)
    ensures InVain(rp, i, presses, k + 1)
    ensures OtherStreams(presses[k].closed, Waited(rp, i, presses, k), i)
    ensures Waited(rp, i, presses, k + 1) == CloseAll(Waited(rp, i, presses, k), presses[k].closed)
  {
    ClosedAreOthers(rp, i, presses, k);
    CloseAllAppend(rp, ClosedBy(presses, k), presses[k].closed);
  }

  lemma WaitDecides(rp: RootPort, i: nat, presses: seq<KeyPress>, k: nat)
    requires Presses(rp, i, presses) && WaitEnds(rp, i, presses, k)
    ensures SlotsAfter(rp, i, presses, k) <==> SlotsComeFree(rp, i, presses)
  {
    if SlotsComeFree(rp, i, presses) {
      var n: nat :| n <= |presses| && (forall j | 0 <= j < n :: presses[j].Again?) && SlotsAfter(rp, i, presses, n);
      assert k <= n;
      assert k == n || presses[k].Again?;
    }
  }

  /** A switch succeeds exactly then: both ends are enabled, slots come free, every answer is good. */
  ghost predicate CanSwitch(w: World, i: nat, presses: seq<KeyPress>, r: seq<Reply>)
    requires Presses(w.rp, i, presses) && |r| == |SwitchSteps(false)|
  {
    w.rpEnabled && w.dev.enabled && SlotsComeFree(w.rp, i, presses) && Answered(SwitchSteps(false), r, |r|)
  }

  /** A switch on the lowest free triple, if there is one. */
  ghost predicate SwitchedOn(w: World, w': World, ok: bool, i: nat, ks: KeySet, fixedKey: bool, r: seq<Reply>)
    requires |r| == |SwitchSteps(false)|
  {
    if !CanAllocate(w.rp) then w' == w && !ok
    else exists t: nat | t < MAP_BITS ::
      && HandsOut(w.rp, t) && Fits(Session(i, ks, Triple(t), fixedKey), w.rp)
      && Run(w', ok) == ExecAll(Session(i, ks, Triple(t), fixedKey), w, SwitchSteps(false), r)
  }

  /** What a switch does: nothing while an end is disabled; else it waits for slots and runs its steps on them. */
  ghost predicate Switched(w: World, w': World, ok: bool, i: nat, ks: KeySet, fixedKey: bool,
                           presses: seq<KeyPress>, r: seq<Reply>)
    requires Presses(w.rp, i, presses) && |r| == |SwitchSteps(false)|
  {
    if !w.rpEnabled || !w.dev.enabled then w' == w && !ok
    else exists k ::
      && WaitEnds(w.rp, i, presses, k)
      && SwitchedOn(w.(rp := Waited(w.rp, i, presses, k)), w', ok, i, ks, fixedKey, r)
  }

  /** One turn of the refresh loop, from a world in which all paths agree on the other key set: it carries out one
      command, and succeeds exactly when that can be.  Veiled, so that a list of turns does not open them all. */
  ghost predicate Turn(w: World, w': World, ok: bool, i: nat, ks: KeySet, fixedKey: bool, command: Command) {
    forall d: nat {:trigger Peek(d)} | Peek(d) ::
      && Agreement(w, i, ks.Other())
      && command.Refresh? && Presses(w.rp, i, command.presses) && |command.replies| == |SwitchSteps(false)|
      && Switched(w, w', ok, i, ks, fixedKey, command.presses, command.replies)
      && (ok <==> CanSwitch(w, i, command.presses, command.replies))
  }

  /** What a turn of the refresh of stream `i` may be. */
  ghost function Refreshing(i: nat, fixedKey: bool): (World, World, bool, KeySet, Command) -> bool {
    (w: World, w': World, ok: bool, ks: KeySet, command: Command) => Turn(w, w', ok, i, ks, fixedKey, command)
  }

  /** The turns of a run, whatever a turn is, each from the world that the one before it left: every one but the last
      succeeds; turn number `c` switches from `ks` flipped `c` times to `ks` flipped once more. */
  ghost predicate TurnsBy(turn: (World, World, bool, KeySet, Command) -> bool, worlds: seq<World>, res: bool,
                          ks: KeySet, commands: seq<Command>)
    requires 0 < |worlds| <= |commands| + 1
  {
    forall c | 0 <= c < |worlds| - 1 ::
      turn(worlds[c], worlds[c + 1], res || c + 2 < |worlds|, Flipped(ks, c + 1), commands[c])
  }

  lemma OneMoreBy(turn: (World, World, bool, KeySet, Command) -> bool, worlds: seq<World>, w: World, res: bool,
                  ks: KeySet, commands: seq<Command>)
    requires 0 < |worlds| <= |commands| && TurnsBy(turn, worlds, true, ks, commands)
    requires turn(worlds[|worlds| - 1], w, res, Flipped(ks, |worlds|), commands[|worlds| - 1])
    ensures TurnsBy(turn, worlds + [w], res, ks, commands)
  {
  }

  /** The turns of a refresh.  Veiled, so that one more turn does not open the others. */
  ghost predicate Turns(worlds: seq<World>, res: bool, i: nat, ks: KeySet, fixedKey: bool, commands: seq<Command>)
    requires 0 < |worlds| <= |commands| + 1
  {
    forall d: nat {:trigger Look(d)} | Look(d) :: TurnsBy(Refreshing(i, fixedKey), worlds, res, ks, commands)
  }

  lemma OneMoreTurn(worlds: seq<World>, w: World, res: bool, i: nat, ks: KeySet, fixedKey: bool,
                    commands: seq<Command>)
    requires 0 < |worlds| <= |commands| && Turns(worlds, true, i, ks, fixedKey, commands)
    requires Turn(worlds[|worlds| - 1], w, res, i, Flipped(ks, |worlds|), fixedKey, commands[|worlds| - 1])
    ensures Turns(worlds + [w], res, i, ks, fixedKey, commands)
  {
    assert Look(0);
    OneMoreBy(Refreshing(i, fixedKey), worlds, w, res, ks, commands);
  }

  class RefreshTest {
    const manager: Manager
    const i: nat            // rp_stream_index
    const fixedKey: bool    // g_teeio_fixed_key
    var kSet: SlotIds       // the slots of the last allocation
    var keySet: KeySet      // mKeySet

    constructor (manager: Manager, i: nat, fixedKey: bool, kSet: SlotIds, keySet: KeySet)
      ensures this.manager == manager && this.i == i && this.fixedKey == fixedKey
      ensures this.kSet == kSet && this.keySet == keySet
    {
      this.manager, this.i, this.fixedKey := manager, i, fixedKey;
      this.kSet, this.keySet := kSet, keySet;
    }

    ghost predicate Valid()
      reads this, manager, manager.kcbar, manager.kcbar.regs
    {
      manager.Valid() && i < |manager.State().rp.streams|
    }

    ghost function State(): World
      requires Valid()
      reads this, manager, manager.kcbar, manager.kcbar.regs
    {
      manager.State()
    }

    ghost predicate OthersOnly(closed: seq<nat>)
      requires Valid()
      reads this, manager, manager.kcbar, manager.kcbar.regs
    {
      OtherStreams(closed, State().rp, i)
    }

    ghost predicate GoodPresses(presses: seq<KeyPress>)
      requires Valid()
      reads this, manager, manager.kcbar, manager.kcbar.regs
    {
      Presses(State().rp, i, presses)
    }

    /** Other programs close some of their streams. */
    method OthersClose(closed: seq<nat>)
      requires Valid() && OthersOnly(closed)
      modifies manager.kcbar.regs
      ensures Valid() && State() == old(State()).(rp := CloseAll(old(State().rp), closed))
    {
      ghost var rp := State().rp;
      for k := 0 to |closed|
        invariant Valid() && State() == old(State()).(rp := CloseAll(rp, closed[..k]))
      {
        manager.kcbar.EnableIdeStreamInKcbar(closed[k], false);
        assert closed[..k + 1][..k] == closed[..k];
      }
      assert closed[..|closed|] == closed;
    }

    /** From the world `w` on the operator has closed other streams `k` times, and there were no slots before.
        Veiled, because the loop below would otherwise look into the closings of every turn at once. */
    ghost predicate Waiting(w: World, presses: seq<KeyPress>, k: nat)
      reads this, manager, manager.kcbar, manager.kcbar.regs
    {
      forall d: nat {:trigger Look(d)} | Look(d) ::
        && Valid() && i < |w.rp.streams| && Disjoint(w.rp)
        && Presses(w.rp, i, presses) && InVain(w.rp, i, presses, k)
        && State() == w.(rp := Waited(w.rp, i, presses, k))
    }

    /** One call of the allocator; the wait is over when it finds slots, and when the operator gives up. */
    method TryAlloc(ghost w: World, presses: seq<KeyPress>, k: nat) returns (found: bool)
      requires Waiting(w, presses, k)
      modifies this`kSet
      ensures Waiting(w, presses, k) && Valid() && State() == old(State())
      ensures found <==> CanAllocate(State().rp)
      ensures found ==> exists t: nat | t < MAP_BITS :: kSet == Triple(t) && HandsOut(State().rp, t)
      ensures !found ==> kSet == old(kSet)
    {
      assert Look(0);
      WaitedIsDisjoint(w.rp, i, presses, k);
      DisjointIsScannable(State().rp);
      found, kSet := PcieIdeAllocSlotIds(manager.kcbar, kSet);
    }

    /** The operator closes other streams once more. */
    method AskToClose(ghost w: World, presses: seq<KeyPress>, k: nat)
      requires Waiting(w, presses, k) && k < |presses| && presses[k].Again?
      requires Valid() && !CanAllocate(State().rp)
      modifies manager.kcbar.regs
      ensures Waiting(w, presses, k + 1)
    {
      assert Look(0);
      OneMorePress(w.rp, i, presses, k);
      OthersClose(presses[k].closed);
    }

    lemma WaitOver(w: World, presses: seq<KeyPress>, k: nat)
      requires Waiting(w, presses, k) && Valid() && Presses(w.rp, i, presses)
      requires k <= |presses| && (CanAllocate(State().rp) || k == |presses| || presses[k].Quit?)
      ensures WaitEnds(w.rp, i, presses, k) && State() == w.(rp := Waited(w.rp, i, presses, k))
      ensures CanAllocate(State().rp) <==> SlotsComeFree(w.rp, i, presses)
    {
      assert Look(0);
      WaitDecides(w.rp, i, presses, k);
    }

    /** The loop: tries, and asks the operator to close other streams as long as there are no slots. */
    method WaitForSlots(presses: seq<KeyPress>, ghost w: World) returns (found: bool, k: nat)
      requires Waiting(w, presses, 0)
      modifies this`kSet, manager.kcbar.regs
      ensures Waiting(w, presses, k) && Valid() && (found <==> CanAllocate(State().rp))
      ensures k <= |presses| && (found || k == |presses| || presses[k].Quit?)
      ensures found ==> exists t: nat | t < MAP_BITS :: kSet == Triple(t) && HandsOut(State().rp, t)
      ensures !found ==> kSet == old(kSet)
    {
      k := 0;
      while true
        invariant k <= |presses| && Waiting(w, presses, k) && kSet == old(kSet)
        decreases |presses| - k
      {
        found := TryAlloc(w, presses, k);
        if found || k == |presses| || presses[k].Quit? {
          return;
        }
        AskToClose(w, presses, k);
        k := k + 1;
      }
    }

    /** Allocates slots; `asked` is how often the operator closed other streams.  Finds the lowest triple
        that is free at that point, if and only if slots come free in time. */
    method AllocSlots(presses: seq<KeyPress>) returns (found: bool, ghost asked: nat)
      requires Valid() && Disjoint(State().rp) && GoodPresses(presses)
      modifies this`kSet, manager.kcbar.regs
      ensures Valid() && WaitEnds(old(State().rp), i, presses, asked)
      ensures State() == old(State()).(rp := Waited(old(State().rp), i, presses, asked))
      ensures found <==> SlotsComeFree(old(State().rp), i, presses)
      ensures found ==> exists t: nat | t < MAP_BITS :: kSet == Triple(t) && HandsOut(State().rp, t)
      ensures !found ==> kSet == old(kSet)
    {
      ghost var w := State();
      found, asked := WaitForSlots(presses, w);
      WaitOver(w, presses, asked);
    }

    /** ide_key_switch_to, for this stream and key set `ks`. */
    method IdeKeySwitchTo(ks: KeySet, presses: seq<KeyPress>, r: seq<Reply>) returns (ok: bool)
      requires Valid() && Disjoint(State().rp) && GoodPresses(presses) && |r| == |SwitchSteps(false)|
      modifies this`kSet, manager, manager.kcbar.regs
      ensures Valid()
      ensures |State().rp.streams| == old(|State().rp.streams|)
      ensures Switched(old(State()), State(), ok, i, ks, fixedKey, presses, r)
      ensures ok <==>
        old(State().rpEnabled && State().dev.enabled && SlotsComeFree(State().rp, i, presses)) &&
        Answered(SwitchSteps(false), r, |r|)
      ensures old(Agreement(State(), i, ks.Other())) ==>
        && Disjoint(State().rp) && InUseAgrees(State(), i) && OnEither(State().dev, ks)
        && (ok ==> Agreement(State(), i, ks))
    {
      ghost var w := State();
      if Agreement(w, i, ks.Other()) {
        AgreementInUse(w, i, ks.Other());
        AgreementOnEither(w, i, ks.Other());
      }
      // step 1: both ends are enabled
      if !manager.rpEnabled || !manager.dev.enabled {
        return false;
      }
      // step 2: find slots
      ghost var asked;
      ok, asked := AllocSlots(presses);
      WaitDecides(w.rp, i, presses, asked);
      ClosedAreOthers(w.rp, i, presses, asked);
      CloseKeepsDisjoint(w.rp, ClosedBy(presses, asked), i);
      if Agreement(w, i, ks.Other()) {
        CloseKeepsAgreement(w, ClosedBy(presses, asked), i, ks.Other());
        AgreementInUse(State(), i, ks.Other());
      }
      if !ok {
        return;
      }
      ok := SwitchOnSlots(ks, r);
    }

    /** The rest of the switch, on the slots that were found. */
    method SwitchOnSlots(ks: KeySet, r: seq<Reply>) returns (ok: bool)
      requires Valid() && Disjoint(State().rp) && |r| == |SwitchSteps(false)|
      requires exists t: nat | t < MAP_BITS :: kSet == Triple(t) && HandsOut(State().rp, t)
      modifies manager, manager.kcbar.regs
      ensures Valid() && |State().rp.streams| == old(|State().rp.streams|)
      ensures SwitchedOn(old(State()), State(), ok, i, ks, fixedKey, r)
      ensures ok <==> Answered(SwitchSteps(false), r, |r|)
      ensures old(Agreement(State(), i, ks.Other())) ==>
        && Disjoint(State().rp) && InUseAgrees(State(), i) && OnEither(State().dev, ks)
        && (ok ==> Agreement(State(), i, ks))
    {
      var s := Session(i, ks, kSet, fixedKey);
      ghost var t: nat :| t < MAP_BITS && kSet == Triple(t) && HandsOut(State().rp, t);
      ghost var w := State();
      ok := manager.SwitchTo(s, false, r);
      if Agreement(w, i, ks.Other()) {
        SwitchSafe(s, t, w, r, ks.Other());
      }
    }

    /** pcie_ide_keyrefresh_setup_common: the stream is set up on `keySet` with the slots at hand. */
    method Setup(r: seq<Reply>, ghost t: nat) returns (ok: bool)
      requires Valid() && |r| == |SetupSteps(false)|
      requires Start(Session(i, keySet, kSet, fixedKey), t, State().rp)
      modifies manager, manager.kcbar.regs
      ensures Valid() && Disjoint(State().rp)
      ensures ok <==> Answered(SetupSteps(false), r, |r|)
      ensures var run := ExecAll(Session(i, keySet, kSet, fixedKey), old(State()), SetupSteps(false), r);
        State() == run.w && ok == run.ok
      ensures ok ==> Agreement(State(), i, keySet)
    {
      var s := Session(i, keySet, kSet, fixedKey);
      GuardedFits(s, t, State().rp);
      SetupAgrees(s, t, State(), r);
      ProcedureSteps(false);
      ExecBetween(s, t, State(), SetupSteps(false), 1, r, |r|);
      ok := manager.SetupIdeStream(s, false, r);
    }

    /** What holds at the head of every turn, and after a failed one (`!res`). */
    ghost predicate Stands(w0: World, ks0: KeySet, commands: seq<Command>, worlds: seq<World>, res: bool)
      reads this, manager, manager.kcbar, manager.kcbar.regs
    {
      && Valid() && |State().rp.streams| == |w0.rp.streams|
      && 0 < |worlds| <= |commands| + 1 && Turns(worlds, res, i, ks0, fixedKey, commands)
      && worlds[0] == w0 && worlds[|worlds| - 1] == State()
      && Disjoint(State().rp) && InUseAgrees(State(), i) && OnEither(State().dev, keySet)
      && (res ==> keySet == Flipped(ks0, |worlds| - 1) && Agreement(State(), i, keySet))
      && (!res ==> 1 < |worlds| && keySet == Flipped(ks0, |worlds| - 2))
    }

    /** The same veiled, because the loop below would otherwise look into the worlds before and after its turn at
        once. */
    ghost predicate Standing(w0: World, ks0: KeySet, commands: seq<Command>, worlds: seq<World>, res: bool)
      reads this, manager, manager.kcbar, manager.kcbar.regs
    {
      forall d: nat {:trigger Look(d)} | Look(d) :: Stands(w0, ks0, commands, worlds, res)
    }

    lemma Unveil(w0: World, ks0: KeySet, commands: seq<Command>, worlds: seq<World>, res: bool)
      requires Standing(w0, ks0, commands, worlds, res)
      ensures Stands(w0, ks0, commands, worlds, res)
    {
      assert Look(0);
    }

    lemma TurnDone(w0: World, ks0: KeySet, commands: seq<Command>, worlds: seq<World>, res: bool)
      requires Valid() && |State().rp.streams| == |w0.rp.streams|
      requires 1 < |worlds| <= |commands| + 1 && Turns(worlds, res, i, ks0, fixedKey, commands)
      requires worlds[0] == w0 && worlds[|worlds| - 1] == State()
      requires Disjoint(State().rp) && InUseAgrees(State(), i) && OnEither(State().dev, keySet)
      requires if res then keySet == Flipped(ks0, |worlds| - 1) && Agreement(State(), i, keySet)
        else keySet == Flipped(ks0, |worlds| - 2)
      ensures Standing(w0, ks0, commands, worlds, res)
    {
    }

    lemma AtStart(commands: seq<Command>)
      requires Valid() && Agreement(State(), i, keySet)
      ensures Standing(State(), keySet, commands, [State()], true)
    {
      AgreementInUse(State(), i, keySet);
      AgreementOnEither(State(), i, keySet);
    }

    /** One turn of the loop: a refresh, after which the test holds on to the new key set if it succeeded. */
    method DoTurn(command: Command) returns (res: bool)
      requires Valid() && Agreement(State(), i, keySet)
      requires command.Refresh? && GoodPresses(command.presses) && |command.replies| == |SwitchSteps(false)|
      modifies this, manager, manager.kcbar.regs
      ensures Valid() && |State().rp.streams| == old(|State().rp.streams|)
      ensures Turn(old(State()), State(), res, i, old(keySet).Other(), fixedKey, command)
      ensures Disjoint(State().rp) && InUseAgrees(State(), i) && OnEither(State().dev, keySet)
      ensures if res then keySet == old(keySet).Other() && Agreement(State(), i, keySet) else keySet == old(keySet)
    {
      var ks := if keySet == KS0 then KS1 else KS0;
      res := IdeKeySwitchTo(ks, command.presses, command.replies);
      if res {
        keySet := ks;
      }
    }

    method NextTurn(ghost w0: World, ghost ks0: KeySet, commands: seq<Command>, c: nat, ghost worlds: seq<World>)
      returns (res: bool, ghost worlds': seq<World>)
      requires Standing(w0, ks0, commands, worlds, true) && |worlds| == c + 1 && c < |commands|
      requires commands[c].Refresh? && Presses(w0.rp, i, commands[c].presses)
      requires |commands[c].replies| == |SwitchSteps(false)|
      modifies this, manager, manager.kcbar.regs
      ensures Standing(w0, ks0, commands, worlds', res) && |worlds'| == c + 2
    {
      Unveil(w0, ks0, commands, worlds, true);
      res := DoTurn(commands[c]);
      OneMoreTurn(worlds, State(), res, i, ks0, fixedKey, commands);
      worlds' := worlds + [State()];
      TurnDone(w0, ks0, commands, worlds', res);
    }

    /** pcie_ide_keyrefresh_run_common: carries out one command after the other, until one is a stop or
        cannot be carried out; `worlds` is what the turns found and left.  At the head of every turn the stream
        runs on `keySet` with all six paths in agreement, and `keySet` is the initial one flipped once for
        every refresh; a failed refresh ends the run, with the paths in use still in agreement. */
    method Run(commands: seq<Command>) returns (res: bool, rounds: nat, ghost worlds: seq<World>)
      requires Valid() && Agreement(State(), i, keySet)
      requires forall c | 0 <= c < |commands| && commands[c].Refresh? ::
        GoodPresses(commands[c].presses) && |commands[c].replies| == |SwitchSteps(false)|
      modifies this, manager, manager.kcbar.regs
      ensures Valid() && Disjoint(State().rp) && InUseAgrees(State(), i) && OnEither(State().dev, keySet)
      ensures |worlds| == rounds + 1 <= |commands| + 1 && worlds[0] == old(State()) && worlds[rounds] == State()
      ensures Turns(worlds, res, i, old(keySet), fixedKey, commands)
      ensures res ==> rounds == |commands| || commands[rounds].Stop?
      ensures res ==> keySet == Flipped(old(keySet), rounds) && Agreement(State(), i, keySet)
      ensures !res ==> 0 < rounds && keySet == Flipped(old(keySet), rounds - 1)
    {
      AtStart(commands);
      res, rounds, worlds := true, 0, [State()];
      while res
        invariant rounds <= |commands| && |worlds| == rounds + 1
        invariant Standing(old(State()), old(keySet), commands, worlds, res)
        decreases |commands| - rounds, res
      {
        if rounds == |commands| || commands[rounds].Stop? {
          break;
        }
        res, worlds := NextTurn(old(State()), old(keySet), commands, rounds, worlds);
        rounds := rounds + 1;
      }
      Unveil(old(State()), old(keySet), commands, worlds, res);
    }

    /** pcie_ide_teardown_common: both ends are disabled whatever the device answers to the stops, which name the
        test's key set and end at the first failure.  The device no longer uses a path exactly if it used it with
        the test's key set and the stops up to its own all succeeded. */
    method Teardown(r: seq<bool>) returns (ok: bool)
      requires Valid() && Disjoint(State().rp) && |r| == 6
      modifies manager, manager.kcbar.regs
      ensures Valid() && Disjoint(State().rp)
      ensures !State().rp.streams[i].Enabled() && !State().rpEnabled && !State().dev.enabled
      ensures OthersKept(old(State().rp), State().rp, i)
      ensures ok <==> forall k | 0 <= k < 6 :: r[k]
      ensures State().dev == old(State().dev).(enabled := false, active := State().dev.active)
      ensures State().dev.active == Stopped(old(State().dev.active), PathsStopped(r), keySet)
      ensures ok ==> PathsStopped(r) == PathsOf(RX) + PathsOf(TX)
    {
      DisabledKeepsDisjoint(State().rp, i);
      manager.dev := manager.dev.(enabled := false);
      manager.kcbar.EnableIdeStreamInKcbar(i, false);
      manager.rpEnabled := false;
      ok := StopAll(r);
    }

    /** The six stops, until one fails. */
    method StopAll(r: seq<bool>) returns (ok: bool)
      requires |r| == 6
      modifies manager`dev
      ensures ok <==> forall k | 0 <= k < 6 :: r[k]
      ensures manager.dev == old(manager.dev).(active := Stopped(old(manager.dev.active), PathsStopped(r), keySet))
    {
      ghost var active := manager.dev.active;
      ghost var rx, tx;
      ok, rx := StopDirection(RX, r[..3]);
      if !ok {
        StopsJoined(r, rx, {});
        return;
      }
      ok, tx := StopDirection(TX, r[3..]);
      StoppedTwice(active, rx, tx, keySet);
      StopsJoined(r, rx, tx);
    }

    /** Tells the device to stop using the test's key set in one direction; `paths` are those it stopped. */
    method StopDirection(dir: Direction, r: seq<bool>) returns (ok: bool, ghost paths: set<Path>)
      requires |r| == 3
      modifies manager`dev
      ensures ok <==> r == [true, true, true]
      ensures manager.dev == old(manager.dev).(active := Stopped(old(manager.dev.active), paths, keySet))
      ensures StopsOf(paths, dir, r)
    {
      ghost var active := manager.dev.active;
      paths := {};
      assert Stopped(active, {}, keySet) == active;
      ok := KeySetStop(dir, PR, r[0]);
      if !ok { return; }
      paths := {Path(dir, PR)};
      ok := KeySetStop(dir, NPR, r[1]);
      if !ok { return; }
      StoppedTwice(active, paths, {Path(dir, NPR)}, keySet);
      paths := paths + {Path(dir, NPR)};
      ok := KeySetStop(dir, CPL, r[2]);
      if !ok { return; }
      StoppedTwice(active, paths, {Path(dir, CPL)}, keySet);
      paths := paths + {Path(dir, CPL)};
    }

    /** K_SET_STOP for the test's key set and one path; a path that uses the other key set goes on. */
    method KeySetStop(dir: Direction, sub: SubStream, reply: bool) returns (ok: bool)
      modifies manager`dev
      ensures ok == reply
      ensures manager.dev == old(manager.dev).(active :=
        if ok then Stopped(old(manager.dev.active), {Path(dir, sub)}, keySet) else old(manager.dev.active))
    {
      if reply {
        manager.dev := manager.dev.(active := Stopped(manager.dev.active, {Path(dir, sub)}, keySet));
      }
      return reply;
    }
  }
}
