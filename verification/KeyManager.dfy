/** The key management of one root port and device: the procedures as the library runs them,
    each proved to be the execution of its list of steps. */
module KeyManager {
  import opened Words
  import opened Kcbar
  import opened SlotAlloc
  import opened KeyProtocol

  /** The next step runs only if nothing has failed. */
  function Next(before: Run, after: Run): Run { if before.ok then after else before }

  lemma ExecProgram(s: Session, w: World, steps: seq<Step>, replies: seq<Reply>, n: nat, dir: Direction, sub: SubStream)
    requires Fits(s, w.rp) && n < |steps| && n < |replies| && steps[n] == KeyProg(dir, sub)
    ensures var before := Exec(s, w, steps, replies, n);
      Exec(s, w, steps, replies, n + 1) == Next(before, ProgramStep(s, before.w, dir, sub, replies[n]))
  {
  }

  lemma ExecGo(s: Session, w: World, steps: seq<Step>, replies: seq<Reply>, n: nat, dir: Direction, sub: SubStream)
    requires Fits(s, w.rp) && n < |steps| && n < |replies| && steps[n] == KSetGo(dir, sub)
    ensures var before := Exec(s, w, steps, replies, n);
      Exec(s, w, steps, replies, n + 1) == Next(before, GoStep(s, before.w, dir, sub, replies[n]))
  {
  }

  lemma ExecPrime(s: Session, w: World, steps: seq<Step>, replies: seq<Reply>, n: nat, dir: Direction)
    requires Fits(s, w.rp) && n < |steps| && n < |replies| && steps[n] == PrimeKeys(dir)
    ensures var before := Exec(s, w, steps, replies, n);
      Exec(s, w, steps, replies, n + 1) == Next(before, PrimeStep(s, before.w, dir))
  {
  }

  lemma ExecSelect(s: Session, w: World, steps: seq<Step>, replies: seq<Reply>, n: nat)
    requires Fits(s, w.rp) && n < |steps| && n < |replies| && steps[n] == Select
    ensures var before := Exec(s, w, steps, replies, n);
      Exec(s, w, steps, replies, n + 1) == Next(before, SelectStep(s, before.w))
  {
  }

  // ------------------------------------------------------------ the parts of a procedure

  /** The three keys of one direction and the priming of that direction. */
  function ProgramPart(s: Session, start: Run, dir: Direction, r: seq<Reply>): (res: Run)
    requires Fits(s, start.w.rp) && |r| == 4
    ensures Fits(s, res.w.rp)
  {
    var a := Next(start, ProgramStep(s, start.w, dir, PR, r[0]));
    var b := Next(a, ProgramStep(s, a.w, dir, NPR, r[1]));
    var c := Next(b, ProgramStep(s, b.w, dir, CPL, r[2]));
    Next(c, PrimeStep(s, c.w, dir))
  }

  /** The three K_SET_GOs of one direction. */
  function GoPart(s: Session, start: Run, dir: Direction, r: seq<Reply>): (res: Run)
    requires Fits(s, start.w.rp) && |r| == 3
    ensures Fits(s, res.w.rp)
  {
    var a := Next(start, GoStep(s, start.w, dir, PR, r[0]));
    var b := Next(a, GoStep(s, a.w, dir, NPR, r[1]));
    Next(b, GoStep(s, b.w, dir, CPL, r[2]))
  }

  lemma ProgramPartIsExec(s: Session, w: World, steps: seq<Step>, replies: seq<Reply>, n: nat, dir: Direction)
    requires Fits(s, w.rp) && n + 4 <= |steps| && n + 4 <= |replies|
    requires steps[n..n + 4] == [KeyProg(dir, PR), KeyProg(dir, NPR), KeyProg(dir, CPL), PrimeKeys(dir)]
    ensures Exec(s, w, steps, replies, n + 4) == ProgramPart(s, Exec(s, w, steps, replies, n), dir, replies[n..n + 4])
  {
    assert steps[n] == steps[n..n + 4][0] && steps[n + 1] == steps[n..n + 4][1];
    assert steps[n + 2] == steps[n..n + 4][2] && steps[n + 3] == steps[n..n + 4][3];
    ExecProgram(s, w, steps, replies, n, dir, PR);
    ExecProgram(s, w, steps, replies, n + 1, dir, NPR);
    ExecProgram(s, w, steps, replies, n + 2, dir, CPL);
    ExecPrime(s, w, steps, replies, n + 3, dir);
  }

  lemma GoPartIsExec(s: Session, w: World, steps: seq<Step>, replies: seq<Reply>, n: nat, dir: Direction)
    requires Fits(s, w.rp) && n + 3 <= |steps| && n + 3 <= |replies|
    requires steps[n..n + 3] == [KSetGo(dir, PR), KSetGo(dir, NPR), KSetGo(dir, CPL)]
    ensures Exec(s, w, steps, replies, n + 3) == GoPart(s, Exec(s, w, steps, replies, n), dir, replies[n..n + 3])
  {
    assert steps[n] == steps[n..n + 3][0] && steps[n + 1] == steps[n..n + 3][1] && steps[n + 2] == steps[n..n + 3][2];
    ExecGo(s, w, steps, replies, n, dir, PR);
    ExecGo(s, w, steps, replies, n + 1, dir, NPR);
    ExecGo(s, w, steps, replies, n + 2, dir, CPL);
  }

  /** Program and prime both directions. */
  function ProgramBoth(s: Session, start: Run, r: seq<Reply>): (res: Run)
    requires Fits(s, start.w.rp) && |r| == 8
    ensures Fits(s, res.w.rp)
  {
    ProgramPart(s, ProgramPart(s, start, RX, r[..4]), TX, r[4..])
  }

  /** Let the device receive, switch the root port, let the device transmit. */
  function GoBoth(s: Session, start: Run, r: seq<Reply>): (res: Run)
    requires Fits(s, start.w.rp) && |r| == 7
    ensures Fits(s, res.w.rp)
  {
    var a := GoPart(s, start, RX, r[..3]);
    GoPart(s, Next(a, SelectStep(s, a.w)), TX, r[4..])
  }

  lemma ProgramBothIsExec(s: Session, w: World, steps: seq<Step>, replies: seq<Reply>, n: nat)
    requires Fits(s, w.rp) && n + 8 <= |steps| && n + 8 <= |replies|
    requires steps[n..n + 8] == PROGRAM
    ensures Exec(s, w, steps, replies, n + 8) == ProgramBoth(s, Exec(s, w, steps, replies, n), replies[n..n + 8])
  {
    assert steps[n..n + 4] == steps[n..n + 8][..4] && steps[n + 4..n + 8] == steps[n..n + 8][4..];
    assert replies[n..n + 8][..4] == replies[n..n + 4] && replies[n..n + 8][4..] == replies[n + 4..n + 8];
    ProgramPartIsExec(s, w, steps, replies, n, RX);
    ProgramPartIsExec(s, w, steps, replies, n + 4, TX);
  }

  lemma GoBothIsExec(s: Session, w: World, steps: seq<Step>, replies: seq<Reply>, n: nat)
    requires Fits(s, w.rp) && n + 7 <= |steps| && n + 7 <= |replies|
    requires steps[n..n + 7] == GO
    ensures Exec(s, w, steps, replies, n + 7) == GoBoth(s, Exec(s, w, steps, replies, n), replies[n..n + 7])
  {
    assert steps[n..n + 3] == steps[n..n + 7][..3] && steps[n + 3] == steps[n..n + 7][3];
    assert steps[n + 4..n + 7] == steps[n..n + 7][4..];
    assert replies[n..n + 7][..3] == replies[n..n + 3] && replies[n..n + 7][4..] == replies[n + 4..n + 7];
    GoPartIsExec(s, w, steps, replies, n, RX);
    ExecSelect(s, w, steps, replies, n + 3);
    GoPartIsExec(s, w, steps, replies, n + 4, TX);
  }

  // ------------------------------------------------------------ composition

  lemma {:induction false} ExecPrefix(s: Session, w: World, a: seq<Step>, b: seq<Step>, r: seq<Reply>, n: nat)
    requires Fits(s, w.rp) && |r| == |a| + |b| && n <= |a|
    ensures Exec(s, w, a + b, r, n) == Exec(s, w, a, r[..|a|], n)
  {
    if n > 0 {
      ExecPrefix(s, w, a, b, r, n - 1);
      assert (a + b)[n - 1] == a[n - 1] && r[..|a|][n - 1] == r[n - 1];
    }
  }

  lemma {:induction false} ExecSuffix(s: Session, w: World, a: seq<Step>, b: seq<Step>, r: seq<Reply>, n: nat)
    requires Fits(s, w.rp) && |r| == |a| + |b| && n <= |b|
    ensures var p := Exec(s, w, a, r[..|a|], |a|);
      Exec(s, w, a + b, r, |a| + n) == if p.ok then Exec(s, p.w, b, r[|a|..], n) else p
  {
    if n == 0 {
      ExecPrefix(s, w, a, b, r, |a|);
    } else {
      ExecSuffix(s, w, a, b, r, n - 1);
      assert (a + b)[|a| + n - 1] == b[n - 1] && r[|a|..][n - 1] == r[|a| + n - 1];
    }
  }

  /** One list of steps after another: the second runs if the first succeeds. */
  lemma ExecConcat(s: Session, w: World, a: seq<Step>, b: seq<Step>, r: seq<Reply>)
    requires Fits(s, w.rp) && |r| == |a| + |b|
    ensures ExecAll(s, w, a + b, r) ==
      var p := ExecAll(s, w, a, r[..|a|]); if p.ok then ExecAll(s, p.w, b, r[|a|..]) else p
  {
    ExecSuffix(s, w, a, b, r, |b|);
  }

  lemma ExecOne(s: Session, w: World, st: Step, r: Reply)
    requires Fits(s, w.rp)
    ensures ExecAll(s, w, [st], [r]) == DoStep(s, w, st, r)
  {
    assert Exec(s, w, [st], [r], 0) == Run(w, true);
  }

  lemma ExecProgramSteps(s: Session, w: World, r: seq<Reply>)
    requires Fits(s, w.rp) && |r| == 8
    ensures ExecAll(s, w, PROGRAM, r) == ProgramBoth(s, Run(w, true), r)
  {
    assert PROGRAM[0..8] == PROGRAM && r[0..8] == r;
    ProgramBothIsExec(s, w, PROGRAM, r, 0);
  }

  lemma ExecGoSteps(s: Session, w: World, r: seq<Reply>)
    requires Fits(s, w.rp) && |r| == 7
    ensures ExecAll(s, w, GO, r) == GoBoth(s, Run(w, true), r)
  {
    assert GO[0..7] == GO && r[0..7] == r;
    GoBothIsExec(s, w, GO, r, 0);
  }

  /** A switch: the programming, then the go steps, then the final check. */
  lemma SwitchParts(s: Session, w: World, skip: bool, r: seq<Reply>)
    requires Fits(s, w.rp) && |r| == |SwitchSteps(skip)|
    ensures ExecAll(s, w, SwitchSteps(skip), r) ==
      var a := ExecAll(s, w, PROGRAM, r[..8]);
      if skip || !a.ok then a else
      var b := ExecAll(s, a.w, GO, r[8..15]);
      if !b.ok then b else Run(b.w, r[15].ok)
  {
    assert skip ==> r[..8] == r;
    if !skip {
      ExecConcat(s, w, PROGRAM + GO, [CheckSecure], r);
      ExecConcat(s, w, PROGRAM, GO, r[..15]);
      assert r[..15][..8] == r[..8] && r[..15][8..] == r[8..15] && r[15..] == [r[15]];
      var b := ExecAll(s, w, PROGRAM + GO, r[..15]);
      ExecOne(s, b.w, CheckSecure, r[15]);
    }
  }

  /** A setup: the query, the programming, the go steps, the enables, the final check. */
  lemma SetupParts(s: Session, w: World, skip: bool, r: seq<Reply>)
    requires Fits(s, w.rp) && |r| == |SetupSteps(skip)|
    ensures ExecAll(s, w, SetupSteps(skip), r) ==
      if !r[0].ok then Run(w, false) else
      var a := ExecAll(s, w, PROGRAM, r[1..9]);
      if skip || !a.ok then a else
      var b := ExecAll(s, a.w, GO, r[9..16]);
      if !b.ok then b else
      var c := ExecAll(s, b.w, ENABLE, r[16..18]);
      if !c.ok then c else Run(c.w, r[18].ok)
  {
    var rest := if skip then PROGRAM else PROGRAM + GO + ENABLE + [CheckSecure];
    ExecConcat(s, w, [Query], rest, r);
    ExecOne(s, w, Query, r[0]);
    assert r[..1] == [r[0]];
    var q := r[1..];
    if skip {
      assert q == r[1..9];
    } else {
      ExecConcat(s, w, PROGRAM + GO + ENABLE, [CheckSecure], q);
      ExecConcat(s, w, PROGRAM + GO, ENABLE, q[..17]);
      ExecConcat(s, w, PROGRAM, GO, q[..17][..15]);
      assert q[..17][..15][..8] == r[1..9] && q[..17][..15][8..] == r[9..16];
      assert q[..17][15..] == r[16..18] && q[17..] == [r[18]];
      ExecOne(s, ExecAll(s, w, PROGRAM + GO + ENABLE, q[..17]).w, CheckSecure, r[18]);
    }
  }

  class Manager {
    const kcbar: RegisterBlock
    var rpEnabled: bool
    var dev: Device

    constructor (kcbar: RegisterBlock)
      ensures this.kcbar == kcbar && !rpEnabled && dev == Device(map[], map[], false)
    {
      this.kcbar := kcbar;
      rpEnabled, dev := false, Device(map[], map[], false);
    }

    ghost predicate Valid()
      reads this, kcbar, kcbar.regs
    {
      kcbar.Valid()
    }

    /** The world as the protocol's specification sees it. */
    ghost function State(): World
      requires Valid()
      reads this, kcbar, kcbar.regs
    {
      World(kcbar.Abs(), rpEnabled, dev)
    }

    // ide_km_key_prog
    method IdeKmKeyProg(s: Session, dir: Direction, sub: SubStream, r: Reply) returns (ok: bool)
      requires Valid() && Fits(s, kcbar.Abs())
      modifies this, kcbar.regs
      ensures Valid() && Run(State(), ok) == ProgramStep(s, old(State()), dir, sub, r)
    {
      var key := KeyUsed(s, dir, r);
      if r.ok || r.took {
        dev := dev.(keys := dev.keys[KeyId(s.ks, dir, sub) := Material(key, DEVICE_IV)]);
      }
      if !r.ok {
        return false;
      }
      var rpKey := PcieConstructRpKeys(key);
      kcbar.CfgRootportIdeKeys(s.i, dir, s.ks, sub, s.ids.Id(dir, sub), rpKey, ROOT_PORT_IV);
      return true;
    }

    static method PcieConstructRpKeys(keys: Key) returns (rpKeys: Key)
      ensures rpKeys == Reversed(keys)
    {
      var buffer: seq<u32> := [];
      var sizeInDw := |keys|;
      for i := 0 to sizeInDw
        invariant |buffer| == i && buffer == Reversed(keys)[..i]
      {
        buffer := buffer + [keys[sizeInDw - i - 1]];
      }
      rpKeys := buffer;
    }

    // ide_km_key_set_go
    method IdeKmKeySetGo(s: Session, dir: Direction, sub: SubStream, r: Reply) returns (ok: bool)
      requires Valid() && Fits(s, kcbar.Abs())
      modifies this
      ensures Valid() && Run(State(), ok) == GoStep(s, old(State()), dir, sub, r)
    {
      if r.ok || r.took {
        dev := dev.(active := dev.active[Path(dir, sub) := s.ks]);
      }
      return r.ok;
    }

    method ProgramDirection(s: Session, dir: Direction, r: seq<Reply>) returns (ok: bool)
      requires Valid() && Fits(s, kcbar.Abs()) && |r| == 4
      modifies this, kcbar.regs
      ensures Valid() && Run(State(), ok) == ProgramPart(s, Run(old(State()), true), dir, r)
    {
      ok := IdeKmKeyProg(s, dir, PR, r[0]);
      if !ok { return; }
      ok := IdeKmKeyProg(s, dir, NPR, r[1]);
      if !ok { return; }
      ok := IdeKmKeyProg(s, dir, CPL, r[2]);
      if !ok { return; }
      kcbar.PrimeRpIdeKeySet(s.i, dir, s.ks);
    }

    method GoDirection(s: Session, dir: Direction, r: seq<Reply>) returns (ok: bool)
      requires Valid() && Fits(s, kcbar.Abs()) && |r| == 3
      modifies this
      ensures Valid() && Run(State(), ok) == GoPart(s, Run(old(State()), true), dir, r)
    {
      ok := IdeKmKeySetGo(s, dir, PR, r[0]);
      if !ok { return; }
      ok := IdeKmKeySetGo(s, dir, NPR, r[1]);
      if !ok { return; }
      ok := IdeKmKeySetGo(s, dir, CPL, r[2]);
    }

    method ProgramKeys(s: Session, r: seq<Reply>) returns (ok: bool)
      requires Valid() && Fits(s, kcbar.Abs()) && |r| == 8
      modifies this, kcbar.regs
      ensures Valid() && Run(State(), ok) == ExecAll(s, old(State()), PROGRAM, r)
    {
      ExecProgramSteps(s, State(), r);
      ok := ProgramDirection(s, RX, r[..4]);
      if !ok { return; }
      ok := ProgramDirection(s, TX, r[4..]);
    }

    method SwitchKeys(s: Session, r: seq<Reply>) returns (ok: bool)
      requires Valid() && Fits(s, kcbar.Abs()) && |r| == 7
      modifies this, kcbar.regs
      ensures Valid() && Run(State(), ok) == ExecAll(s, old(State()), GO, r)
    {
      ExecGoSteps(s, State(), r);
      ok := GoDirection(s, RX, r[..3]);
      if !ok { return; }
      kcbar.SetRpIdeKeySetSelect(s.i, s.ks);
      ok := GoDirection(s, TX, r[4..]);
    }

    /** Enable the device's stream, then the root port's. */
    method EnableBoth(s: Session, r: seq<Reply>)
      requires Valid() && Fits(s, kcbar.Abs()) && |r| == 2
      modifies this, kcbar.regs
      ensures Valid() && Run(State(), true) == ExecAll(s, old(State()), ENABLE, r)
    {
      ghost var w := State();
      assert Exec(s, w, ENABLE, r, 0) == Run(w, true);
      dev := dev.(enabled := true);
      assert Exec(s, w, ENABLE, r, 1) == Run(State(), true);
      kcbar.EnableIdeStreamInKcbar(s.i, true);
      rpEnabled := true;
    }

    method SetupIdeStream(s: Session, skipKSetGo: bool, r: seq<Reply>) returns (ok: bool)
      requires Valid() && Fits(s, kcbar.Abs()) && |r| == |SetupSteps(skipKSetGo)|
      modifies this, kcbar.regs
      ensures Valid() && Run(State(), ok) == ExecAll(s, old(State()), SetupSteps(skipKSetGo), r)
      ensures ok <==> Answered(SetupSteps(skipKSetGo), r, |r|)
    {
      ExecSucceedsExactly(s, State(), SetupSteps(skipKSetGo), r, |r|);
      SetupParts(s, State(), skipKSetGo, r);
      // the query
      if !r[0].ok { return false; }
      ok := ProgramKeys(s, r[1..9]);
      if !ok || skipKSetGo { return; }
      ok := SwitchKeys(s, r[9..16]);
      if !ok { return; }
      EnableBoth(s, r[16..18]);
      // is_ide_stream_secure
      return r[18].ok;
    }

    /** The rest of ide_key_switch_to, when the stream is enabled and slots are found. */
    method SwitchTo(s: Session, skipKSetGo: bool, r: seq<Reply>) returns (ok: bool)
      requires Valid() && Fits(s, kcbar.Abs()) && |r| == |SwitchSteps(skipKSetGo)|
      modifies this, kcbar.regs
      ensures Valid() && Run(State(), ok) == ExecAll(s, old(State()), SwitchSteps(skipKSetGo), r)
      ensures ok <==> Answered(SwitchSteps(skipKSetGo), r, |r|)
    {
      ExecSucceedsExactly(s, State(), SwitchSteps(skipKSetGo), r, |r|);
      SwitchParts(s, State(), skipKSetGo, r);
      ok := ProgramKeys(s, r[..8]);
      if !ok || skipKSetGo { return; }
      ok := SwitchKeys(s, r[8..15]);
      if !ok { return; }
      // is_ide_stream_secure
      return r[15].ok;
    }
  }
}
