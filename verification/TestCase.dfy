/** The life of one test case: the callbacks the runner makes for it, in which order and on which
    conditions.  Every callback may answer as it likes. */
module TestCase {
  import opened TestResults
  import opened Veil

  datatype Case = Case(classId: nat, caseId: nat, skip: bool, hasSetup: bool, hasRun: bool, hasTeardown: bool,
                       checkRequired: bool)

  datatype Kind = Support | Enable | Check | Disable

  /** A call of a callback, for group `g` and its case `c`. */
  datatype Call =
    | GroupSetup(g: nat) | GroupTeardown(g: nat)
    | Item(kind: Kind, g: nat, c: nat, item: nat)
    | Setup(g: nat, c: nat) | RunIt(g: nat, c: nat) | Teardown(g: nat, c: nat)

  /** What a callback answers, whether it asks to skip the case, and what it records. */
  datatype Answer = Answer(ret: bool, skip: bool, records: seq<Assertion>)

  /** The answers, by the number of calls made before. */
  type Answers = nat -> Answer

  // ------------------------------------------------------------ one case

  /** The next call of a case, or its end.  Optional callbacks that a case does not have are left out. */
  datatype Phase =
    | Supporting(k: nat) | Enabling(k: nat) | SettingUp | Running | Checking(k: nat)
    | TearingDown | Disabling(k: nat) | Finished

  predicate InRange(ph: Phase, n: nat) { ph.Supporting? || ph.Enabling? || ph.Checking? || ph.Disabling? ==> ph.k < n }

  function AfterChecks(tc: Case): Phase { if tc.hasTeardown then TearingDown else Disabling(0) }
  function AfterRun(tc: Case, go: bool): Phase { if go && tc.checkRequired then Checking(0) else AfterChecks(tc) }
  function AfterSetup(tc: Case, go: bool): Phase { if go && tc.hasRun then Running else AfterRun(tc, go) }
  function AfterEnables(tc: Case): Phase { if tc.hasSetup then SettingUp else AfterSetup(tc, true) }

  /** Where do_run_test_case goes on when the callback of a phase gave an answer; `n` is the number of
      configuration items.  A pass over the items ends at the first failure. */
  function Next(ph: Phase, a: Answer, tc: Case, n: nat): (r: Phase)
    requires InRange(ph, n) && n > 0
    ensures InRange(r, n) && (!ph.Finished? ==> Rank(ph, n) < Rank(r, n))
  {
    match ph
    case Supporting(k) => if !a.ret then Finished else if k + 1 < n then Supporting(k + 1) else Enabling(0)
    case Enabling(k) => if !a.ret then Finished else if k + 1 < n then Enabling(k + 1) else AfterEnables(tc)
    case SettingUp => AfterSetup(tc, a.ret && !a.skip)
    case Running => AfterRun(tc, true)
    case Checking(k) => if a.ret && k + 1 < n then Checking(k + 1) else AfterChecks(tc)
    case TearingDown => Disabling(0)
    case Disabling(k) => if a.ret && k + 1 < n then Disabling(k + 1) else Finished
    case Finished => Finished
  }

  /** The place of a phase in the life of a case. */
  function Rank(ph: Phase, n: nat): nat {
    match ph
    case Supporting(k) => k
    case Enabling(k) => n + k
    case SettingUp => 2 * n
    case Running => 2 * n + 1
    case Checking(k) => 2 * n + 2 + k
    case TearingDown => 3 * n + 2
    case Disabling(k) => 3 * n + 3 + k
    case Finished => 4 * n + 3
  }

  function CallOf(ph: Phase, g: nat, c: nat): Call
    requires !ph.Finished?
  {
    match ph
    case Supporting(k) => Item(Support, g, c, k)
    case Enabling(k) => Item(Enable, g, c, k)
    case SettingUp => Setup(g, c)
    case Running => RunIt(g, c)
    case Checking(k) => Item(Check, g, c, k)
    case TearingDown => Teardown(g, c)
    case Disabling(k) => Item(Disable, g, c, k)
  }

  /** The phases that a case goes through from `ph` on, when `p` calls were made before. */
  function Trace(ans: Answers, p: nat, ph: Phase, tc: Case, n: nat): (r: seq<Phase>)
    requires n > 0 && InRange(ph, n)
    ensures NotFinished(r)
    decreases 4 * n + 3 - Rank(ph, n)
  {
    if ph.Finished? then [] else [ph] + Trace(ans, p + 1, Next(ph, ans(p), tc, n), tc, n)
  }

  /** The phases of a whole case; one to be skipped has none. */
  function CaseTrace(ans: Answers, p: nat, tc: Case, n: nat): (r: seq<Phase>)
    requires n > 0
    ensures NotFinished(r)
  {
    if tc.skip then [] else Trace(ans, p, Supporting(0), tc, n)
  }

  predicate NotFinished(s: seq<Phase>) { forall i | 0 <= i < |s| :: !s[i].Finished? }

  function Calls(s: seq<Phase>, g: nat, c: nat): (r: seq<Call>)
    requires NotFinished(s)
    ensures |r| == |s|
  {
    seq(|s|, i requires 0 <= i < |s| => CallOf(s[i], g, c))
  }

  // ------------------------------------------------------------ the discipline of one case

  /** From any phase on, for any answers, the phases come in the order of their ranks. */
  lemma {:induction false} TraceClimbs(ans: Answers, p: nat, ph: Phase, tc: Case, n: nat)
    requires n > 0 && InRange(ph, n)
    ensures var t := Trace(ans, p, ph, tc, n);
      && NotFinished(t)
      && (forall i | 0 <= i < |t| :: InRange(t[i], n) && Rank(ph, n) <= Rank(t[i], n))
      && (forall i, j | 0 <= i < j < |t| :: Rank(t[i], n) < Rank(t[j], n))
    decreases 4 * n + 3 - Rank(ph, n)
  {
    if !ph.Finished? {
      TraceClimbs(ans, p + 1, Next(ph, ans(p), tc, n), tc, n);
    }
  }

  /** A phase was gone through, and its callback succeeded. */
  predicate Succeeded(ans: Answers, p: nat, t: seq<Phase>, ph: Phase) {
    exists i :: 0 <= i < |t| && t[i] == ph && ans(p + i).ret
  }

  predicate SetupPassed(ans: Answers, p: nat, t: seq<Phase>) {
    exists i :: 0 <= i < |t| && t[i] == SettingUp && ans(p + i).ret && !ans(p + i).skip
  }

  predicate EnabledFrom(ans: Answers, p: nat, t: seq<Phase>, j: nat, n: nat) {
    forall k: nat | j <= k < n :: Succeeded(ans, p, t, Enabling(k))
  }

  lemma SucceededNext(ans: Answers, p: nat, x: Phase, rest: seq<Phase>, ph: Phase)
    ensures Succeeded(ans, p, [x] + rest, ph) <==> (x == ph && ans(p).ret) || Succeeded(ans, p + 1, rest, ph)
  {
    var t := [x] + rest;
    if i :| 0 <= i < |t| && t[i] == ph && ans(p + i).ret && i > 0 {
      assert rest[i - 1] == ph && ans(p + 1 + (i - 1)).ret;
    }
    if i :| 0 <= i < |rest| && rest[i] == ph && ans(p + 1 + i).ret {
      assert t[i + 1] == ph && ans(p + (i + 1)).ret;
    }
    if x == ph && ans(p).ret {
      assert t[0] == ph && ans(p + 0).ret;
    }
  }

  lemma SetupPassedNext(ans: Answers, p: nat, x: Phase, rest: seq<Phase>)
    requires x != SettingUp
    ensures SetupPassed(ans, p, [x] + rest) <==> SetupPassed(ans, p + 1, rest)
  {
    var t := [x] + rest;
    if i :| 0 <= i < |t| && t[i] == SettingUp && ans(p + i).ret && !ans(p + i).skip {
      assert rest[i - 1] == SettingUp && ans(p + 1 + (i - 1)).ret;
    }
    if i :| 0 <= i < |rest| && rest[i] == SettingUp && ans(p + 1 + i).ret && !ans(p + 1 + i).skip {
      assert t[i + 1] == SettingUp && ans(p + (i + 1)).ret;
    }
  }

  lemma TraceHas(ans: Answers, p: nat, ph: Phase, tc: Case, n: nat, x: Phase)
    requires n > 0 && InRange(ph, n) && !ph.Finished?
    ensures x in Trace(ans, p, ph, tc, n) <==> x == ph || x in Trace(ans, p + 1, Next(ph, ans(p), tc, n), tc, n)
  {
  }

  lemma TraceAbove(ans: Answers, p: nat, ph: Phase, tc: Case, n: nat, x: Phase)
    requires n > 0 && InRange(ph, n) && Rank(x, n) < Rank(ph, n)
    ensures x !in Trace(ans, p, ph, tc, n)
  {
    TraceClimbs(ans, p, ph, tc, n);
  }

  /** From a phase behind the setup on: always the disabling, the teardown if there is one. */
  lemma {:induction false} LaterBrackets(ans: Answers, p: nat, ph: Phase, tc: Case, n: nat)
    requires n > 0 && InRange(ph, n) && 2 * n < Rank(ph, n) <= 3 * n + 3 && (ph == TearingDown ==> tc.hasTeardown)
    ensures var t := Trace(ans, p, ph, tc, n);
      && Disabling(0) in t && (Running in t <==> ph == Running)
      && (TearingDown in t <==> ph != Disabling(0) && tc.hasTeardown)
    decreases 4 * n + 3 - Rank(ph, n)
  {
    var next := Next(ph, ans(p), tc, n);
    TraceHas(ans, p, ph, tc, n, Disabling(0));
    TraceHas(ans, p, ph, tc, n, TearingDown);
    TraceHas(ans, p, ph, tc, n, Running);
    if ph == Disabling(0) {
      TraceAbove(ans, p + 1, next, tc, n, TearingDown);
      TraceAbove(ans, p + 1, next, tc, n, Running);
    } else {
      LaterBrackets(ans, p + 1, next, tc, n);
    }
  }

  /** From the setup on, the run exactly as the setup lets it. */
  lemma BodyBrackets(ans: Answers, p: nat, tc: Case, n: nat)
    requires n > 0
    ensures var t := Trace(ans, p, AfterEnables(tc), tc, n);
      && Disabling(0) in t && (TearingDown in t <==> tc.hasTeardown)
      && (Running in t <==> tc.hasRun && (tc.hasSetup ==> SetupPassed(ans, p, t)))
  {
    var ph := AfterEnables(tc);
    if ph == SettingUp {
      var next := Next(ph, ans(p), tc, n);
      TraceHas(ans, p, ph, tc, n, Disabling(0));
      TraceHas(ans, p, ph, tc, n, TearingDown);
      TraceHas(ans, p, ph, tc, n, Running);
      LaterBrackets(ans, p + 1, next, tc, n);
      SetupFirst(ans, p, tc, n);
    } else {
      LaterBrackets(ans, p, ph, tc, n);
    }
  }

  lemma SetupFirst(ans: Answers, p: nat, tc: Case, n: nat)
    requires n > 0
    ensures SetupPassed(ans, p, Trace(ans, p, SettingUp, tc, n)) <==> ans(p).ret && !ans(p).skip
  {
    var t := Trace(ans, p, SettingUp, tc, n);
    TraceClimbs(ans, p, SettingUp, tc, n);
    assert t[0] == SettingUp && ans(p + 0) == ans(p);
  }

  /** The disabling and the teardown, and the run, are gone through as they should be.  Veiled, because the
      inductions pass it on unopened and its memberships would all be expanded. */
  ghost predicate Bracketed(ans: Answers, p: nat, t: seq<Phase>, enabled: bool, tc: Case) {
    forall k: nat {:trigger Look(k)} | Look(k) ::
      && (Disabling(0) in t <==> enabled) && (TearingDown in t <==> enabled && tc.hasTeardown)
      && (Running in t <==> enabled && tc.hasRun && (tc.hasSetup ==> SetupPassed(ans, p, t)))
  }

  lemma BracketedNext(ans: Answers, p: nat, x: Phase, rest: seq<Phase>, enabled: bool, tc: Case)
    requires x.Supporting? || x.Enabling?
    ensures Bracketed(ans, p, [x] + rest, enabled, tc) <==> Bracketed(ans, p + 1, rest, enabled, tc)
  {
    assert Look(0);
    SetupPassedNext(ans, p, x, rest);
  }

  /** What follows the enable of item `j` is bracketed.  Veiled, so that the trace is not unfolded. */
  ghost predicate RestBracketed(ans: Answers, p: nat, j: nat, tc: Case, n: nat)
    requires j < n
  {
    forall d: nat {:trigger Look(d)} | Look(d) ::
      var rest := Trace(ans, p + 1, Next(Enabling(j), ans(p), tc, n), tc, n);
      Bracketed(ans, p + 1, rest, ans(p).ret && EnabledFrom(ans, p + 1, rest, j + 1, n), tc)
  }

  /** What begins with the enable of item `j` is bracketed: everything behind the enables is gone
      through if all of them succeed, and nothing otherwise.  Veiled like the one before. */
  ghost predicate EnablesBracketed(ans: Answers, p: nat, j: nat, tc: Case, n: nat)
    requires j < n
  {
    forall d: nat {:trigger Look(d)} | Look(d) ::
      var t := Trace(ans, p, Enabling(j), tc, n); Bracketed(ans, p, t, EnabledFrom(ans, p, t, j, n), tc)
  }

  lemma EnableStep(ans: Answers, p: nat, j: nat, tc: Case, n: nat)
    requires j < n && RestBracketed(ans, p, j, tc, n)
    ensures EnablesBracketed(ans, p, j, tc, n)
  {
    assert Look(0);
    var rest := Trace(ans, p + 1, Next(Enabling(j), ans(p), tc, n), tc, n);
    EnabledNext(ans, p, j, tc, n);
    BracketedNext(ans, p, Enabling(j), rest, ans(p).ret && EnabledFrom(ans, p + 1, rest, j + 1, n), tc);
  }

  lemma LastEnable(ans: Answers, p: nat, j: nat, tc: Case, n: nat)
    requires j + 1 == n && ans(p).ret
    ensures RestBracketed(ans, p, j, tc, n)
  {
    BodyBrackets(ans, p + 1, tc, n);
  }

  lemma EnableFails(ans: Answers, p: nat, j: nat, tc: Case, n: nat)
    requires j < n && !ans(p).ret
    ensures RestBracketed(ans, p, j, tc, n)
  {
  }

  lemma EnableGoesOn(ans: Answers, p: nat, j: nat, tc: Case, n: nat)
    requires j + 1 < n && ans(p).ret && EnablesBracketed(ans, p + 1, j + 1, tc, n)
    ensures RestBracketed(ans, p, j, tc, n)
  {
    assert Look(0);
  }

  lemma {:induction false} EnableBrackets(ans: Answers, p: nat, j: nat, tc: Case, n: nat)
    requires j < n
    ensures EnablesBracketed(ans, p, j, tc, n)
    decreases n - j
  {
    if !ans(p).ret {
      EnableFails(ans, p, j, tc, n);
    } else if j + 1 < n {
      EnableBrackets(ans, p + 1, j + 1, tc, n);
      EnableGoesOn(ans, p, j, tc, n);
    } else {
      LastEnable(ans, p, j, tc, n);
    }
    EnableStep(ans, p, j, tc, n);
  }

  lemma EnabledNext(ans: Answers, p: nat, j: nat, tc: Case, n: nat)
    requires j < n
    ensures EnabledFrom(ans, p, Trace(ans, p, Enabling(j), tc, n), j, n) <==>
      ans(p).ret && EnabledFrom(ans, p + 1, Trace(ans, p + 1, Next(Enabling(j), ans(p), tc, n), tc, n), j + 1, n)
  {
    var next := Next(Enabling(j), ans(p), tc, n);
    var rest := Trace(ans, p + 1, next, tc, n);
    TraceAbove(ans, p + 1, next, tc, n, Enabling(j));
    forall k: nat | j <= k < n
      ensures Succeeded(ans, p, [Enabling(j)] + rest, Enabling(k)) <==>
        (k == j && ans(p).ret) || (k != j && Succeeded(ans, p + 1, rest, Enabling(k)))
    {
      SucceededNext(ans, p, Enabling(j), rest, Enabling(k));
    }
    assert Succeeded(ans, p, [Enabling(j)] + rest, Enabling(j)) <==> ans(p).ret;
  }

  lemma {:induction false} SupportBrackets(ans: Answers, p: nat, j: nat, tc: Case, n: nat)
    requires j < n
    ensures var t := Trace(ans, p, Supporting(j), tc, n); Bracketed(ans, p, t, EnabledFrom(ans, p, t, 0, n), tc)
    decreases n - j
  {
    var next := Next(Supporting(j), ans(p), tc, n);
    var rest := Trace(ans, p + 1, next, tc, n);
    forall k: nat | k < n
      ensures Succeeded(ans, p, [Supporting(j)] + rest, Enabling(k)) <==> Succeeded(ans, p + 1, rest, Enabling(k))
    {
      SucceededNext(ans, p, Supporting(j), rest, Enabling(k));
    }
    BracketedNext(ans, p, Supporting(j), rest, EnabledFrom(ans, p + 1, rest, 0, n), tc);
    if ans(p).ret {
      if j + 1 < n {
        SupportBrackets(ans, p + 1, j + 1, tc, n);
      } else {
        EnableBrackets(ans, p + 1, 0, tc, n);
        assert Look(0);
      }
    } else {
      assert !Succeeded(ans, p + 1, rest, Enabling(0));
    }
  }

  /** The bracketing of a case, for any answers: its configuration is disabled and it is torn down if
      and only if all items were enabled; it is run if and only if, besides, its setup succeeded without
      asking to be skipped. */
  lemma CaseBrackets(ans: Answers, p: nat, tc: Case, n: nat)
    requires n > 0
    ensures var t := CaseTrace(ans, p, tc, n); var enabled := EnabledFrom(ans, p, t, 0, n);
      && (Disabling(0) in t <==> enabled)
      && (TearingDown in t <==> enabled && tc.hasTeardown)
      && (Running in t <==> enabled && tc.hasRun && (tc.hasSetup ==> SetupPassed(ans, p, t)))
  {
    if tc.skip {
      assert !Succeeded(ans, p, [], Enabling(0));
    } else {
      assert Look(0);
      SupportBrackets(ans, p, 0, tc, n);
    }
  }

  /** Whatever the callbacks answer, the phases of a case come in order: support checks, enables, setup,
      run, configuration checks, teardown, disables; and none comes twice. */
  lemma CaseInOrder(ans: Answers, p: nat, tc: Case, n: nat)
    requires n > 0
    ensures var t := CaseTrace(ans, p, tc, n);
      NotFinished(t) && forall i, j | 0 <= i < j < |t| :: Rank(t[i], n) < Rank(t[j], n)
  {
    TraceClimbs(ans, p, Supporting(0), tc, n);
  }

  // ------------------------------------------------------------ which phases are gone through

  /** The phase of item `k` in a pass over the items. */
  function PhaseOf(kind: Kind, k: nat): Phase {
    match kind
    case Support => Supporting(k) case Enable => Enabling(k)
    case Check => Checking(k) case Disable => Disabling(k)
  }

  /** The answer at `i` makes the case go on to `x`. */
  predicate LeadsTo(ans: Answers, p: nat, t: seq<Phase>, tc: Case, n: nat, i: nat, x: Phase)
    requires n > 0
  {
    i < |t| && InRange(t[i], n) && Next(t[i], ans(p + i), tc, n) == x
  }

  /** Every phase but the first is gone through if and only if some answer leads to it. */
  lemma {:induction false} Reached(ans: Answers, p: nat, ph: Phase, tc: Case, n: nat, x: Phase)
    requires n > 0 && InRange(ph, n) && !x.Finished? && x != ph
    ensures var t := Trace(ans, p, ph, tc, n); x in t <==> exists i: nat :: LeadsTo(ans, p, t, tc, n, i, x)
    decreases 4 * n + 3 - Rank(ph, n)
  {
    if !ph.Finished? {
      var next := Next(ph, ans(p), tc, n);
      var t, rest := Trace(ans, p, ph, tc, n), Trace(ans, p + 1, next, tc, n);
      TraceHas(ans, p, ph, tc, n, x);
      if next == x {
        assert LeadsTo(ans, p, t, tc, n, 0, x);
      } else {
        Reached(ans, p + 1, next, tc, n, x);
        ShiftedLead(ans, p, p + 1, ph, rest, tc, n, x);
      }
    }
  }

  lemma ShiftedLead(ans: Answers, p: nat, q: nat, ph: Phase, rest: seq<Phase>, tc: Case, n: nat, x: Phase)
    requires n > 0 && InRange(ph, n) && Next(ph, ans(p), tc, n) != x && q == p + 1
    ensures (exists i: nat :: LeadsTo(ans, p, [ph] + rest, tc, n, i, x)) <==>
      (exists i: nat :: LeadsTo(ans, q, rest, tc, n, i, x))
  {
    var t := [ph] + rest;
    if i: nat :| LeadsTo(ans, p, t, tc, n, i, x) {
      assert LeadsTo(ans, q, rest, tc, n, i - 1, x);
    }
    if i: nat :| LeadsTo(ans, q, rest, tc, n, i, x) {
      assert LeadsTo(ans, p, t, tc, n, i + 1, x);
    }
  }

  /** A phase to which one phase alone leads, when its callback succeeds. */
  lemma ReachedFromOne(ans: Answers, p: nat, tc: Case, n: nat, from: Phase, x: Phase)
    requires n > 0 && !x.Finished? && x != Supporting(0) && InRange(from, n)
    requires forall ph: Phase, a: Answer | InRange(ph, n) :: Next(ph, a, tc, n) == x <==> ph == from && a.ret
    ensures var t := Trace(ans, p, Supporting(0), tc, n); x in t <==> Succeeded(ans, p, t, from)
  {
    var t := Trace(ans, p, Supporting(0), tc, n);
    Reached(ans, p, Supporting(0), tc, n, x);
    if i: nat :| LeadsTo(ans, p, t, tc, n, i, x) {
      assert t[i] == from && ans(p + i).ret;
    }
    if i :| 0 <= i < |t| && t[i] == from && ans(p + i).ret {
      assert LeadsTo(ans, p, t, tc, n, i, x);
    }
  }

  /** In every pass the next item's turn comes if and only if the one before it succeeded. */
  lemma ItemsInTurn(ans: Answers, p: nat, tc: Case, n: nat, kind: Kind, k: nat)
    requires k + 1 < n
    ensures var t := CaseTrace(ans, p, tc, n); PhaseOf(kind, k + 1) in t <==> Succeeded(ans, p, t, PhaseOf(kind, k))
  {
    if !tc.skip {
      ReachedFromOne(ans, p, tc, n, PhaseOf(kind, k), PhaseOf(kind, k + 1));
    }
  }

  /** If an item's callback succeeds, so did those of the items before it. */
  lemma {:induction false} EarlierItems(ans: Answers, p: nat, tc: Case, n: nat, kind: Kind, k: nat)
    requires k < n && Succeeded(ans, p, CaseTrace(ans, p, tc, n), PhaseOf(kind, k))
    ensures forall j: nat | j <= k :: Succeeded(ans, p, CaseTrace(ans, p, tc, n), PhaseOf(kind, j))
  {
    if k > 0 {
      ItemsInTurn(ans, p, tc, n, kind, k - 1);
      EarlierItems(ans, p, tc, n, kind, k - 1);
    }
  }

  /** Every item's callback of this kind succeeded. */
  predicate AllSucceeded(ans: Answers, p: nat, t: seq<Phase>, kind: Kind, n: nat) {
    forall k: nat | k < n :: Succeeded(ans, p, t, PhaseOf(kind, k))
  }

  lemma LastSucceeded(ans: Answers, p: nat, tc: Case, n: nat, kind: Kind)
    requires n > 0
    ensures var t := CaseTrace(ans, p, tc, n);
      AllSucceeded(ans, p, t, kind, n) <==> Succeeded(ans, p, t, PhaseOf(kind, n - 1))
  {
    if Succeeded(ans, p, CaseTrace(ans, p, tc, n), PhaseOf(kind, n - 1)) {
      EarlierItems(ans, p, tc, n, kind, n - 1);
    }
  }

  /** How far a case comes: its items are enabled if and only if all of them are supported, and its setup is
      called if and only if all of them could be enabled. */
  lemma EnabledExactly(ans: Answers, p: nat, tc: Case, n: nat)
    requires n > 0
    ensures var t := CaseTrace(ans, p, tc, n);
      && (Supporting(0) in t <==> !tc.skip)
      && (Enabling(0) in t <==> AllSucceeded(ans, p, t, Support, n))
      && (SettingUp in t <==> tc.hasSetup && AllSucceeded(ans, p, t, Enable, n))
  {
    LastSucceeded(ans, p, tc, n, Support);
    LastSucceeded(ans, p, tc, n, Enable);
    if !tc.skip {
      assert Trace(ans, p, Supporting(0), tc, n)[0] == Supporting(0);
      ReachedFromOne(ans, p, tc, n, Supporting(n - 1), Enabling(0));
      if tc.hasSetup {
        ReachedFromOne(ans, p, tc, n, Enabling(n - 1), SettingUp);
      } else {
        Reached(ans, p, Supporting(0), tc, n, SettingUp);
      }
    }
  }

  /** The configuration is checked if and only if that is required, all items were enabled, and the setup, if
      there is one, succeeded without asking to be skipped. */
  lemma CheckedExactly(ans: Answers, p: nat, tc: Case, n: nat)
    requires n > 0
    ensures var t := CaseTrace(ans, p, tc, n);
      Checking(0) in t <==>
        tc.checkRequired && AllSucceeded(ans, p, t, Enable, n) && (tc.hasSetup ==> SetupPassed(ans, p, t))
  {
    if tc.skip || !tc.checkRequired {
      NotChecked(ans, p, tc, n);
    } else if tc.hasRun {
      CheckedAfterRun(ans, p, tc, n);
    } else if tc.hasSetup {
      CheckedAfterSetup(ans, p, tc, n);
    } else {
      CheckedAfterEnables(ans, p, tc, n);
    }
  }

  lemma NotChecked(ans: Answers, p: nat, tc: Case, n: nat)
    requires n > 0 && (tc.skip || !tc.checkRequired)
    ensures var t := CaseTrace(ans, p, tc, n);
      Checking(0) !in t && (tc.skip ==> !AllSucceeded(ans, p, t, Enable, n))
  {
    if tc.skip {
      assert !Succeeded(ans, p, [], PhaseOf(Enable, 0));
    } else {
      Reached(ans, p, Supporting(0), tc, n, Checking(0));
    }
  }

  /** Who leads to the first configuration check. */
  lemma BeforeCheck(ans: Answers, p: nat, t: seq<Phase>, tc: Case, n: nat, i: nat)
    requires n > 0 && i < |t| && tc.checkRequired
    ensures LeadsTo(ans, p, t, tc, n, i, Checking(0)) <==>
      || t[i] == Running
      || (t[i] == SettingUp && ans(p + i).ret && !ans(p + i).skip && !tc.hasRun)
      || (t[i] == Enabling(n - 1) && ans(p + i).ret && !tc.hasSetup && !tc.hasRun)
  {
  }

  lemma NeverRun(ans: Answers, p: nat, tc: Case, n: nat)
    requires n > 0 && !tc.hasRun
    ensures Running !in CaseTrace(ans, p, tc, n)
  {
    CaseBrackets(ans, p, tc, n);
  }

  lemma CheckedAfterEnables(ans: Answers, p: nat, tc: Case, n: nat)
    requires n > 0 && !tc.skip && tc.checkRequired && !tc.hasRun && !tc.hasSetup
    ensures var t := CaseTrace(ans, p, tc, n); Checking(0) in t <==> AllSucceeded(ans, p, t, Enable, n)
  {
    var t := CaseTrace(ans, p, tc, n);
    LastSucceeded(ans, p, tc, n, Enable);
    EnabledExactly(ans, p, tc, n);
    NeverRun(ans, p, tc, n);
    Reached(ans, p, Supporting(0), tc, n, Checking(0));
    forall i: nat | i < |t|
      ensures t[i] in t
      ensures LeadsTo(ans, p, t, tc, n, i, Checking(0)) <==> t[i] == Enabling(n - 1) && ans(p + i).ret
    {
      BeforeCheck(ans, p, t, tc, n, i);
    }
  }

  lemma CheckedAfterRun(ans: Answers, p: nat, tc: Case, n: nat)
    requires n > 0 && !tc.skip && tc.checkRequired && tc.hasRun
    ensures var t := CaseTrace(ans, p, tc, n);
      Checking(0) in t <==> AllSucceeded(ans, p, t, Enable, n) && (tc.hasSetup ==> SetupPassed(ans, p, t))
  {
    var t := CaseTrace(ans, p, tc, n);
    CaseBrackets(ans, p, tc, n);
    forall k: nat | k < n ensures Enabling(k) == PhaseOf(Enable, k) {}
    assert AllSucceeded(ans, p, t, Enable, n) <==> EnabledFrom(ans, p, t, 0, n);
    Reached(ans, p, Supporting(0), tc, n, Checking(0));
    forall i: nat | i < |t| ensures LeadsTo(ans, p, t, tc, n, i, Checking(0)) <==> t[i] == Running {
      BeforeCheck(ans, p, t, tc, n, i);
    }
  }

  lemma CheckedAfterSetup(ans: Answers, p: nat, tc: Case, n: nat)
    requires n > 0 && !tc.skip && tc.checkRequired && !tc.hasRun && tc.hasSetup
    ensures var t := CaseTrace(ans, p, tc, n);
      Checking(0) in t <==> AllSucceeded(ans, p, t, Enable, n) && SetupPassed(ans, p, t)
  {
    var t := CaseTrace(ans, p, tc, n);
    EnabledExactly(ans, p, tc, n);
    NeverRun(ans, p, tc, n);
    Reached(ans, p, Supporting(0), tc, n, Checking(0));
    forall i: nat | i < |t|
      ensures t[i] in t
      ensures LeadsTo(ans, p, t, tc, n, i, Checking(0)) <==>
        t[i] == SettingUp && ans(p + i).ret && !ans(p + i).skip
    {
      BeforeCheck(ans, p, t, tc, n, i);
    }
  }
}
