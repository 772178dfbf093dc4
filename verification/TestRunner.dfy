/** The test runner: a suite is a plan of groups of cases, run under a configuration.  The runner
    keeps the result tree, whatever the callbacks answer and record. */
module TestRunner {
  import opened TestResults
  import opened TestCase
  import opened Veil

  /** A configuration and the number of its items; it has at least one. */
  datatype Config = Config(id: int, items: nat)

  datatype Suite = Suite(configs: seq<Config>, groups: seq<seq<Case>>)

  /** What the `m` calls after the first `p` recorded. */
  function Recorded(ans: Answers, p: nat, m: nat): seq<Assertion> {
    if m == 0 then [] else Recorded(ans, p, m - 1) + ans(p + m - 1).records
  }

  /** The calls made so far and the result tree. */
  datatype State = State(calls: seq<Call>, configs: seq<ConfigResult>)

  predicate InSomeGroup(configs: seq<ConfigResult>) { configs != [] && Last(configs).groups != [] }

  /** A case gets its result, to which its calls record. */
  function Ran(ans: Answers, s: State, tc: Case, calls: seq<Call>): (r: State)
    requires InSomeGroup(s.configs)
    ensures InSomeGroup(r.configs)
  {
    State(s.calls + calls, RecordAll(NewCase(s.configs, tc.classId, tc.caseId), Recorded(ans, |s.calls|, |calls|)))
  }

  /** How a case is run, when so many calls were made before: the calls it makes.  What is said below of
      groups and suites holds for every way to run a case. */
  type Script = (nat, nat, nat, Case) -> seq<Call>

  /** The calls of a case, made only if the setup of its group succeeded. */
  function CallsIf(ok: bool, run: Script, p: nat, g: nat, c: nat, tc: Case): seq<Call> {
    if ok then run(p, g, c, tc) else []
  }

  /** do_run_test_case under a configuration with `n` items. */
  function CaseScript(ans: Answers, n: nat): Script
    requires n > 0
  {
    (p: nat, g: nat, c: nat, tc: Case) => Calls(CaseTrace(ans, p, tc, n), g, c)
  }

  /** The first `k` cases of a group. */
  function AfterCases(ans: Answers, s: State, g: nat, cases: seq<Case>, k: nat, run: Script, ok: bool): (r: State)
    requires InSomeGroup(s.configs) && k <= |cases|
    ensures InSomeGroup(r.configs)
  {
    if k == 0 then s
    else
      var before := AfterCases(ans, s, g, cases, k - 1, run, ok);
      Ran(ans, before, cases[k - 1], CallsIf(ok, run, |before.calls|, g, k - 1, cases[k - 1]))
  }

  /** do_run_test_group, with the result that is allocated for it; a group without cases is left alone. */
  function AfterGroup(ans: Answers, s: State, g: nat, cases: seq<Case>, run: Script): (r: State)
    requires s.configs != []
    ensures r.configs != []
  {
    var configs := NewGroup(s.configs);
    if cases == [] then State(s.calls, configs)
    else
      var ok := ans(|s.calls|).ret;
      var r := AfterCases(ans, State(s.calls + [GroupSetup(g)], configs), g, cases, |cases|, run, ok);
      if ok then State(r.calls + [GroupTeardown(g)], r.configs) else r
  }

  function AfterGroups(ans: Answers, s: State, groups: seq<seq<Case>>, k: nat, run: Script): (r: State)
    requires s.configs != [] && k <= |groups|
    ensures r.configs != []
  {
    if k == 0 then s else AfterGroup(ans, AfterGroups(ans, s, groups, k - 1, run), k - 1, groups[k - 1], run)
  }

  function NewConfig(s: State, config: Config): State {
    State(s.calls, s.configs + [ConfigResult(config.id, 0, 0, [])])
  }

  predicate Planned(suite: Suite) { forall k | 0 <= k < |suite.configs| :: suite.configs[k].items > 0 }

  /** do_run_test_suite, up to the first `k` configurations.  The list of groups is used up by the first
      configuration, so the others run none. */
  function AfterConfigs(ans: Answers, suite: Suite, k: nat): (r: State)
    requires Planned(suite) && k <= |suite.configs|
  {
    if k == 0 then State([], [])
    else
      var s := NewConfig(AfterConfigs(ans, suite, k - 1), suite.configs[k - 1]);
      if k == 1 then AfterGroups(ans, s, suite.groups, |suite.groups|, CaseScript(ans, suite.configs[0].items)) else s
  }

  // ------------------------------------------------------------ conservation

  lemma RanConserves(ans: Answers, s: State, tc: Case, calls: seq<Call>)
    requires InSomeGroup(s.configs) && Conserved(s.configs)
    ensures Conserved(Ran(ans, s, tc, calls).configs)
  {
    NewCaseConserves(s.configs, tc.classId, tc.caseId);
    RecordAllConserves(NewCase(s.configs, tc.classId, tc.caseId), Recorded(ans, |s.calls|, |calls|));
  }

  lemma {:induction false} CasesConserve(ans: Answers, s: State, g: nat, cases: seq<Case>, k: nat, run: Script,
                                        ok: bool)
    requires InSomeGroup(s.configs) && k <= |cases| && Conserved(s.configs)
    ensures Conserved(AfterCases(ans, s, g, cases, k, run, ok).configs)
  {
    if k > 0 {
      CasesConserve(ans, s, g, cases, k - 1, run, ok);
      var before := AfterCases(ans, s, g, cases, k - 1, run, ok);
      RanConserves(ans, before, cases[k - 1], CallsIf(ok, run, |before.calls|, g, k - 1, cases[k - 1]));
    }
  }

  /** The counters agree after the first `k` groups.  Veiled, so that the induction over the groups does not
      open the sums of every level. */
  ghost predicate ConservedUpTo(ans: Answers, s: State, groups: seq<seq<Case>>, k: nat, run: Script)
    requires s.configs != [] && k <= |groups|
  {
    forall d: nat {:trigger Look(d)} | Look(d) :: Conserved(AfterGroups(ans, s, groups, k, run).configs)
  }

  lemma {:induction false} GroupsConserve(ans: Answers, s: State, groups: seq<seq<Case>>, k: nat, run: Script)
    requires s.configs != [] && k <= |groups| && Conserved(s.configs)
    ensures ConservedUpTo(ans, s, groups, k, run)
  {
    if k > 0 {
      GroupsConserve(ans, s, groups, k - 1, run);
      NextGroupConserves(ans, s, groups, k, run);
    } else {
      NoGroupsConserve(ans, s, groups, run);
    }
  }

  lemma NoGroupsConserve(ans: Answers, s: State, groups: seq<seq<Case>>, run: Script)
    requires s.configs != [] && Conserved(s.configs)
    ensures ConservedUpTo(ans, s, groups, 0, run)
  {
  }

  lemma NextGroupConserves(ans: Answers, s: State, groups: seq<seq<Case>>, k: nat, run: Script)
    requires s.configs != [] && 0 < k <= |groups| && ConservedUpTo(ans, s, groups, k - 1, run)
    ensures ConservedUpTo(ans, s, groups, k, run)
  {
    assert Look(0);
    GroupConserves(ans, AfterGroups(ans, s, groups, k - 1, run), k - 1, groups[k - 1], run);
    GroupsStep(ans, s, groups, k, run);
  }

  lemma GroupConserves(ans: Answers, s: State, g: nat, cases: seq<Case>, run: Script)
    requires s.configs != [] && Conserved(s.configs)
    ensures Conserved(AfterGroup(ans, s, g, cases, run).configs)
  {
    NewGroupConserves(s.configs);
    var ok := ans(|s.calls|).ret;
    CasesConserve(ans, State(s.calls + [GroupSetup(g)], NewGroup(s.configs)), g, cases, |cases|, run, ok);
  }

  /** Group `k` of a suite is run behind the ones before it, with its own number. */
  lemma GroupsStep(ans: Answers, s: State, groups: seq<seq<Case>>, k: nat, run: Script)
    requires s.configs != [] && 0 < k <= |groups|
    ensures AfterGroups(ans, s, groups, k, run) ==
      AfterGroup(ans, AfterGroups(ans, s, groups, k - 1, run), k - 1, groups[k - 1], run)
  {
  }

  /** Whatever the callbacks answer and record, at the end of a suite every counter is the sum over the
      level below it, down to the recorded assertions. */
  lemma {:induction false} SuiteConserves(ans: Answers, suite: Suite, k: nat)
    requires Planned(suite) && k <= |suite.configs|
    ensures Conserved(AfterConfigs(ans, suite, k).configs)
  {
    if k > 0 {
      SuiteConserves(ans, suite, k - 1);
      var s := NewConfig(AfterConfigs(ans, suite, k - 1), suite.configs[k - 1]);
      assert Conserved(s.configs);
      if k == 1 {
        GroupsConserve(ans, s, suite.groups, |suite.groups|, CaseScript(ans, suite.configs[0].items));
        assert Look(0);
      }
    }
  }

  // ------------------------------------------------------------ the results follow the plan

  type Id = (nat, nat)

  /** A configuration's results with everything left out but which cases they are of. */
  datatype Outline = Outline(configId: int, groups: seq<seq<Id>>)

  function CaseIds(s: seq<CaseResult>): seq<Id> { seq(|s|, k requires 0 <= k < |s| => (s[k].classId, s[k].caseId)) }
  function GroupIds(s: seq<GroupResult>): seq<seq<Id>> { seq(|s|, k requires 0 <= k < |s| => CaseIds(s[k].cases)) }
  function OutlineOf(c: ConfigResult): Outline { Outline(c.configId, GroupIds(c.groups)) }
  function Outlines(s: seq<ConfigResult>): (r: seq<Outline>)
    ensures |r| == |s|
  {
    seq(|s|, k requires 0 <= k < |s| => OutlineOf(s[k]))
  }

  /** The cases of a group as they are planned. */
  function PlanIds(cases: seq<Case>): (r: seq<Id>)
    ensures |r| == |cases|
  {
    seq(|cases|, k requires 0 <= k < |cases| => (cases[k].classId, cases[k].caseId))
  }

  function Plan(groups: seq<seq<Case>>): (r: seq<seq<Id>>)
    ensures |r| == |groups|
  {
    seq(|groups|, k requires 0 <= k < |groups| => PlanIds(groups[k]))
  }

  lemma GroupIdsNext(s: seq<GroupResult>, x: GroupResult)
    ensures GroupIds(s + [x]) == GroupIds(s) + [CaseIds(x.cases)]
  {
  }

  lemma CaseIdsNext(s: seq<CaseResult>, x: CaseResult)
    ensures CaseIds(s + [x]) == CaseIds(s) + [(x.classId, x.caseId)]
  {
  }

  lemma OutlinesNext(s: seq<ConfigResult>, x: ConfigResult)
    ensures Outlines(s + [x]) == Outlines(s) + [OutlineOf(x)]
  {
  }

  /** The same results but for those of the last configuration, whose outline is `o`. */
  predicate LastOutline(before: seq<ConfigResult>, configs: seq<ConfigResult>, groups: seq<seq<Id>>) {
    && before != [] && configs != [] && Front(configs) == Front(before)
    && OutlineOf(Last(configs)) == Outline(Last(before).configId, groups)
  }

  lemma SplitLast<T>(s: seq<T>)
    requires s != []
    ensures s == Front(s) + [Last(s)]
  {
  }

  lemma RecordOutline(configs: seq<ConfigResult>, a: Assertion)
    requires HasCurrent(configs)
    ensures LastOutline(configs, Record(configs, a), GroupIds(Last(configs).groups))
  {
    var c := Last(configs);
    var g := Last(c.groups);
    SplitLast(c.groups);
    SplitLast(g.cases);
    CaseIdsNext(Front(g.cases), Last(g.cases));
    CaseIdsNext(Front(g.cases), InCase(Last(g.cases), a));
    GroupIdsNext(Front(c.groups), g);
    GroupIdsNext(Front(c.groups), InGroup(g, a));
    FrontLast(Front(configs), InConfig(c, a));
  }

  lemma {:induction false} RecordAllOutline(configs: seq<ConfigResult>, s: seq<Assertion>)
    requires HasCurrent(configs)
    ensures LastOutline(configs, RecordAll(configs, s), GroupIds(Last(configs).groups))
  {
    if s != [] {
      RecordAllOutline(configs, Front(s));
      RecordOutline(RecordAll(configs, Front(s)), Last(s));
    }
  }

  lemma NewCaseOutline(configs: seq<ConfigResult>, classId: nat, caseId: nat, groups: seq<seq<Id>>, ids: seq<Id>)
    requires InSomeGroup(configs) && GroupIds(Last(configs).groups) == groups + [ids]
    ensures LastOutline(configs, NewCase(configs, classId, caseId), groups + [ids + [(classId, caseId)]])
  {
    var c := Last(configs);
    var g := Last(c.groups);
    var x := CaseResult(classId, caseId, 0, 0, []);
    SplitLast(c.groups);
    GroupIdsNext(Front(c.groups), g);
    FrontLast(groups, ids);
    FrontLast(GroupIds(Front(c.groups)), CaseIds(g.cases));
    CaseIdsNext(g.cases, x);
    GroupIdsNext(Front(c.groups), g.(cases := g.cases + [x]));
    FrontLast(Front(configs), c.(groups := Front(c.groups) + [g.(cases := g.cases + [x])]));
  }

  lemma RanOutline(ans: Answers, s: State, tc: Case, calls: seq<Call>, groups: seq<seq<Id>>, ids: seq<Id>)
    requires InSomeGroup(s.configs) && GroupIds(Last(s.configs).groups) == groups + [ids]
    ensures LastOutline(s.configs, Ran(ans, s, tc, calls).configs, groups + [ids + [(tc.classId, tc.caseId)]])
  {
    NewCaseOutline(s.configs, tc.classId, tc.caseId, groups, ids);
    RecordAllOutline(NewCase(s.configs, tc.classId, tc.caseId), Recorded(ans, |s.calls|, |calls|));
  }

  lemma PlanIdsNext(cases: seq<Case>, k: nat)
    requires k < |cases|
    ensures PlanIds(cases)[..k + 1] == PlanIds(cases)[..k] + [(cases[k].classId, cases[k].caseId)]
  {
  }

  lemma {:induction false} CasesOutline(ans: Answers, s: State, g: nat, cases: seq<Case>, k: nat, run: Script,
                                        ok: bool, groups: seq<seq<Id>>)
    requires InSomeGroup(s.configs) && k <= |cases| && GroupIds(Last(s.configs).groups) == groups + [[]]
    ensures LastOutline(s.configs, AfterCases(ans, s, g, cases, k, run, ok).configs, groups + [PlanIds(cases)[..k]])
  {
    if k > 0 {
      CasesOutline(ans, s, g, cases, k - 1, run, ok, groups);
      var before := AfterCases(ans, s, g, cases, k - 1, run, ok);
      PlanIdsNext(cases, k - 1);
      NextCaseOutline(ans, s, before, cases[k - 1], CallsIf(ok, run, |before.calls|, g, k - 1, cases[k - 1]), groups,
        PlanIds(cases)[..k - 1]);
      CasesStep(ans, s, g, cases, k, run, ok);
    }
  }

  lemma NextCaseOutline(ans: Answers, start: State, s: State, tc: Case, calls: seq<Call>, groups: seq<seq<Id>>,
                        ids: seq<Id>)
    requires InSomeGroup(start.configs) && InSomeGroup(s.configs) &&
      LastOutline(start.configs, s.configs, groups + [ids])
    ensures LastOutline(start.configs, Ran(ans, s, tc, calls).configs, groups + [ids + [(tc.classId, tc.caseId)]])
  {
    RanOutline(ans, s, tc, calls, groups, ids);
  }

  lemma CasesStep(ans: Answers, s: State, g: nat, cases: seq<Case>, k: nat, run: Script, ok: bool)
    requires InSomeGroup(s.configs) && 0 < k <= |cases|
    ensures var before := AfterCases(ans, s, g, cases, k - 1, run, ok);
      AfterCases(ans, s, g, cases, k, run, ok) ==
        Ran(ans, before, cases[k - 1], CallsIf(ok, run, |before.calls|, g, k - 1, cases[k - 1]))
  {
  }

  /** One more group of results, for exactly the planned cases, whether or not the group's setup succeeded. */
  lemma GroupOutline(ans: Answers, s: State, g: nat, cases: seq<Case>, run: Script)
    requires s.configs != []
    ensures LastOutline(s.configs, AfterGroup(ans, s, g, cases, run).configs,
      GroupIds(Last(s.configs).groups) + [PlanIds(cases)])
  {
    var configs := NewGroup(s.configs);
    GroupIdsNext(Last(s.configs).groups, GroupResult(0, 0, []));
    FrontLast(Front(s.configs), Last(configs));
    assert CaseIds([]) == [];
    if cases != [] {
      var ok := ans(|s.calls|).ret;
      CasesOutline(ans, State(s.calls + [GroupSetup(g)], configs), g, cases, |cases|, run, ok,
        GroupIds(Last(s.configs).groups));
      assert PlanIds(cases)[..|cases|] == PlanIds(cases);
    }
  }

  /** One more group of results, for the cases `ids`.  Veiled, so that steps from group to group open neither the
      outlines nor the groups. */
  ghost predicate Grows(before: seq<ConfigResult>, after: seq<ConfigResult>, ids: seq<Id>)
    requires before != []
  {
    forall d: nat {:trigger Look(d)} | Look(d) :: LastOutline(before, after, GroupIds(Last(before).groups) + [ids])
  }

  lemma GroupGrows(ans: Answers, s: State, g: nat, cases: seq<Case>, run: Script)
    requires s.configs != []
    ensures Grows(s.configs, AfterGroup(ans, s, g, cases, run).configs, PlanIds(cases))
  {
    GroupOutline(ans, s, g, cases, run);
  }

  lemma OutlineGrows(start: seq<ConfigResult>, before: seq<ConfigResult>, after: seq<ConfigResult>,
                     groups: seq<seq<Id>>, ids: seq<Id>)
    requires LastOutline(start, before, groups) && Grows(before, after, ids)
    ensures LastOutline(start, after, groups + [ids])
  {
    assert Look(0);
  }

  /** Steps that each run the next group, whatever a step is: so stated, the induction does not open the groups. */
  function AfterSteps(step: (State, nat) -> State, s: State, k: nat): State {
    if k == 0 then s else step(AfterSteps(step, s, k - 1), k - 1)
  }

  ghost predicate StepsGrow(step: (State, nat) -> State, plan: seq<seq<Id>>) {
    forall s: State, g: nat | s.configs != [] && g < |plan| ::
      step(s, g).configs != [] && Grows(s.configs, step(s, g).configs, plan[g])
  }

  lemma {:induction false} StepsOutline(step: (State, nat) -> State, plan: seq<seq<Id>>, s: State, k: nat)
    requires StepsGrow(step, plan) && k <= |plan| && s.configs != [] && Last(s.configs).groups == []
    ensures AfterSteps(step, s, k).configs != [] && LastOutline(s.configs, AfterSteps(step, s, k).configs, plan[..k])
  {
    if k > 0 {
      StepsOutline(step, plan, s, k - 1);
      var before := AfterSteps(step, s, k - 1);
      OutlineGrows(s.configs, before.configs, step(before, k - 1).configs, plan[..k - 1], plan[k - 1]);
      assert plan[..k - 1] + [plan[k - 1]] == plan[..k];
    }
  }

  ghost predicate IsStep(step: (State, nat) -> State, ans: Answers, groups: seq<seq<Case>>, run: Script) {
    forall s: State, g: nat | s.configs != [] && g < |groups| :: step(s, g) == AfterGroup(ans, s, g, groups[g], run)
  }

  lemma {:induction false} GroupsAreSteps(step: (State, nat) -> State, ans: Answers, s: State,
                                        groups: seq<seq<Case>>, k: nat, run: Script)
    requires IsStep(step, ans, groups, run) && s.configs != [] && k <= |groups|
    ensures AfterGroups(ans, s, groups, k, run) == AfterSteps(step, s, k)
  {
    if k > 0 {
      GroupsAreSteps(step, ans, s, groups, k - 1, run);
    }
  }

  lemma GroupStepsGrow(step: (State, nat) -> State, ans: Answers, groups: seq<seq<Case>>, run: Script)
    requires IsStep(step, ans, groups, run)
    ensures StepsGrow(step, Plan(groups))
  {
    forall s: State, g: nat | s.configs != [] && g < |groups|
      ensures step(s, g).configs != [] && Grows(s.configs, step(s, g).configs, Plan(groups)[g])
    {
      GroupGrows(ans, s, g, groups[g], run);
    }
  }

  function GroupStep(ans: Answers, groups: seq<seq<Case>>, run: Script): (State, nat) -> State {
    (s: State, g: nat) => if s.configs == [] || g >= |groups| then s else AfterGroup(ans, s, g, groups[g], run)
  }

  /** All groups have the results that were planned. */
  lemma GroupsOutline(ans: Answers, s: State, groups: seq<seq<Case>>, run: Script)
    requires s.configs != [] && Last(s.configs).groups == []
    ensures LastOutline(s.configs, AfterGroups(ans, s, groups, |groups|, run).configs, Plan(groups))
  {
    assert IsStep(GroupStep(ans, groups, run), ans, groups, run);
    GroupsOutlineBy(GroupStep(ans, groups, run), ans, s, groups, run);
  }

  lemma GroupsOutlineBy(step: (State, nat) -> State, ans: Answers, s: State, groups: seq<seq<Case>>, run: Script)
    requires IsStep(step, ans, groups, run) && s.configs != [] && Last(s.configs).groups == []
    ensures LastOutline(s.configs, AfterGroups(ans, s, groups, |groups|, run).configs, Plan(groups))
  {
    GroupStepsGrow(step, ans, groups, run);
    StepsOutline(step, Plan(groups), s, |groups|);
    GroupsAreSteps(step, ans, s, groups, |groups|, run);
    assert Plan(groups)[..|groups|] == Plan(groups);
  }

  /** What the outlines of a suite are: the first configuration has a result for every planned case, in
      the order of the plan; the others have none. */
  function Expected(suite: Suite): seq<Outline> {
    seq(|suite.configs|, k requires 0 <= k < |suite.configs| =>
      Outline(suite.configs[k].id, if k == 0 then Plan(suite.groups) else []))
  }

  lemma {:induction false} SuiteOutline(ans: Answers, suite: Suite, k: nat)
    requires Planned(suite) && k <= |suite.configs|
    ensures Outlines(AfterConfigs(ans, suite, k).configs) == Expected(suite)[..k]
  {
    if k > 0 {
      SuiteOutline(ans, suite, k - 1);
      var before := AfterConfigs(ans, suite, k - 1);
      var s := NewConfig(before, suite.configs[k - 1]);
      var configs := AfterConfigs(ans, suite, k).configs;
      FrontLast(before.configs, ConfigResult(suite.configs[k - 1].id, 0, 0, []));
      if k == 1 {
        GroupsOutline(ans, s, suite.groups, CaseScript(ans, suite.configs[0].items));
      }
      assert GroupIds([]) == [];
      assert Front(configs) == before.configs && OutlineOf(Last(configs)) == Expected(suite)[k - 1];
      SplitLast(configs);
      OutlinesNext(Front(configs), Last(configs));
      assert Expected(suite)[..k] == Expected(suite)[..k - 1] + [Expected(suite)[k - 1]];
    }
  }

  /** The first configuration carries the plan out; every later one runs no group. */
  lemma FirstConfigurationOnly(ans: Answers, suite: Suite)
    requires Planned(suite)
    ensures var configs := AfterConfigs(ans, suite, |suite.configs|).configs;
      |configs| == |suite.configs| && forall k | 0 <= k < |configs| ::
        GroupIds(configs[k].groups) == if k == 0 then Plan(suite.groups) else []
  {
    var configs := AfterConfigs(ans, suite, |suite.configs|).configs;
    SuiteOutline(ans, suite, |suite.configs|);
    assert Expected(suite)[..|suite.configs|] == Expected(suite);
    forall k | 0 <= k < |configs| ensures GroupIds(configs[k].groups) == if k == 0 then Plan(suite.groups) else [] {
      assert Outlines(configs)[k] == OutlineOf(configs[k]);
    }
  }

  /** Every configuration gets a result for every planned case if and only if there is at most one, or
      nothing is planned; suites are built with exactly one. */
  lemma PlanCarriedOutExactly(ans: Answers, suite: Suite)
    requires Planned(suite)
    ensures var configs := AfterConfigs(ans, suite, |suite.configs|).configs;
      (forall k | 0 <= k < |configs| :: GroupIds(configs[k].groups) == Plan(suite.groups)) <==>
        |suite.configs| <= 1 || suite.groups == []
  {
    var configs := AfterConfigs(ans, suite, |suite.configs|).configs;
    FirstConfigurationOnly(ans, suite);
    if |suite.configs| > 1 && suite.groups != [] {
      assert GroupIds(configs[1].groups) == [];
    }
  }

  // ------------------------------------------------------------ the calls and the records of a group

  /** The calls of the first `k` cases, one case after the other, when `p` calls were made before. */
  function CasesRun(run: Script, p: nat, g: nat, cases: seq<Case>, k: nat): seq<Call>
    requires k <= |cases|
  {
    if k == 0 then []
    else
      var before := CasesRun(run, p, g, cases, k - 1);
      before + run(p + |before|, g, k - 1, cases[k - 1])
  }

  lemma {:induction false} CasesCalls(ans: Answers, s: State, g: nat, cases: seq<Case>, k: nat, run: Script, ok: bool)
    requires InSomeGroup(s.configs) && k <= |cases|
    ensures AfterCases(ans, s, g, cases, k, run, ok).calls ==
      s.calls + if ok then CasesRun(run, |s.calls|, g, cases, k) else []
  {
    if k > 0 {
      CasesCalls(ans, s, g, cases, k - 1, run, ok);
      CasesStep(ans, s, g, cases, k, run, ok);
      NextCalls(ans, s, AfterCases(ans, s, g, cases, k - 1, run, ok), g, cases, k, run, ok);
    }
  }

  lemma NextCalls(ans: Answers, s: State, before: State, g: nat, cases: seq<Case>, k: nat, run: Script, ok: bool)
    requires InSomeGroup(before.configs) && 0 < k <= |cases|
    requires before.calls == s.calls + if ok then CasesRun(run, |s.calls|, g, cases, k - 1) else []
    ensures Ran(ans, before, cases[k - 1], CallsIf(ok, run, |before.calls|, g, k - 1, cases[k - 1])).calls ==
      s.calls + if ok then CasesRun(run, |s.calls|, g, cases, k) else []
  {
    RanCalls(ans, before, cases[k - 1], CallsIf(ok, run, |before.calls|, g, k - 1, cases[k - 1]), s.calls,
      if ok then CasesRun(run, |s.calls|, g, cases, k - 1) else []);
  }

  lemma RanCalls(ans: Answers, s: State, tc: Case, calls: seq<Call>, before: seq<Call>, mid: seq<Call>)
    requires InSomeGroup(s.configs) && s.calls == before + mid
    ensures Ran(ans, s, tc, calls).calls == before + (mid + calls)
  {
  }

  /** The bracketing of a group with cases: its setup comes first; if that succeeds, all its cases follow, each
      with all its calls, and then its teardown; otherwise none of its cases makes a call. */
  lemma GroupBrackets(ans: Answers, s: State, g: nat, cases: seq<Case>, run: Script)
    requires s.configs != [] && cases != []
    ensures AfterGroup(ans, s, g, cases, run).calls == s.calls + [GroupSetup(g)] +
      if ans(|s.calls|).ret then CasesRun(run, |s.calls| + 1, g, cases, |cases|) + [GroupTeardown(g)] else []
  {
    var start := State(s.calls + [GroupSetup(g)], NewGroup(s.configs));
    CasesCalls(ans, start, g, cases, |cases|, run, ans(|s.calls|).ret);
  }

  function CurrentCases(configs: seq<ConfigResult>): seq<CaseResult>
    requires InSomeGroup(configs)
  {
    Last(Last(configs).groups).cases
  }

  lemma {:induction false} RecordAllCases(configs: seq<ConfigResult>, s: seq<Assertion>)
    requires HasCurrent(configs)
    ensures var was, cases := CurrentCases(configs), CurrentCases(RecordAll(configs, s));
      && |cases| == |was| && Front(cases) == Front(was)
      && Last(cases).assertions == Last(was).assertions + s
  {
    if s != [] {
      RecordAllCases(configs, Front(s));
      RecordCases(RecordAll(configs, Front(s)), Last(s));
      SplitLast(s);
    }
  }

  lemma RecordCases(configs: seq<ConfigResult>, a: Assertion)
    requires HasCurrent(configs)
    ensures CurrentCases(Record(configs, a)) == Front(CurrentCases(configs)) + [InCase(Current(configs), a)]
  {
  }

  /** One more case has been run, with these records. */
  predicate OneMoreCase(was: seq<CaseResult>, cases: seq<CaseResult>, records: seq<Assertion>) {
    |cases| == |was| + 1 && cases[..|was|] == was && cases[|was|].assertions == records
  }

  lemma RanRecords(ans: Answers, s: State, tc: Case, calls: seq<Call>)
    requires InSomeGroup(s.configs)
    ensures OneMoreCase(CurrentCases(s.configs), CurrentCases(Ran(ans, s, tc, calls).configs),
      Recorded(ans, |s.calls|, |calls|))
  {
    var configs := NewCase(s.configs, tc.classId, tc.caseId);
    assert CurrentCases(configs) == CurrentCases(s.configs) + [CaseResult(tc.classId, tc.caseId, 0, 0, [])];
    RecordAllCases(configs, Recorded(ans, |s.calls|, |calls|));
  }

  /** Every case of a group makes its calls, if the group's setup succeeded, and is credited with what they
      record and nothing else; the results before it stay as they are. */
  lemma CaseByCase(ans: Answers, s: State, g: nat, cases: seq<Case>, k: nat, run: Script, ok: bool)
    requires InSomeGroup(s.configs) && k < |cases|
    ensures var before, after := AfterCases(ans, s, g, cases, k, run, ok), AfterCases(ans, s, g, cases, k + 1, run, ok);
      var own := if ok then run(|before.calls|, g, k, cases[k]) else [];
      && after.calls == before.calls + own
      && OneMoreCase(CurrentCases(before.configs), CurrentCases(after.configs),
           Recorded(ans, |before.calls|, |own|))
  {
    var before := AfterCases(ans, s, g, cases, k, run, ok);
    CasesStep(ans, s, g, cases, k + 1, run, ok);
    RanRecords(ans, before, cases[k], CallsIf(ok, run, |before.calls|, g, k, cases[k]));
  }

  // ------------------------------------------------------------ the code

  /** The calls made so far, and what they recorded for the current case. */
  datatype Log = Log(calls: seq<Call>, recorded: seq<Assertion>)

  function More(ans: Answers, l: Log, calls: seq<Call>): Log {
    Log(l.calls + calls, l.recorded + Recorded(ans, |l.calls|, |calls|))
  }

  lemma {:induction false} RecordedTwice(ans: Answers, p: nat, m: nat, k: nat)
    ensures Recorded(ans, p, m) + Recorded(ans, p + m, k) == Recorded(ans, p, m + k)
  {
    if k > 0 {
      RecordedTwice(ans, p, m, k - 1);
    }
  }

  lemma MoreTwice(ans: Answers, l: Log, a: seq<Call>, b: seq<Call>)
    ensures More(ans, More(ans, l, a), b) == More(ans, l, a + b)
  {
    RecordedTwice(ans, |l.calls|, |a|, |b|);
    assert l.calls + a + b == l.calls + (a + b);
  }

  lemma NoMore(ans: Answers, l: Log)
    ensures More(ans, l, []) == l
  {
  }

  lemma RecordedOne(ans: Answers, p: nat)
    ensures Recorded(ans, p, 1) == ans(p).records
  {
    assert Recorded(ans, p, 0) == [];
  }

  /** Each of the calls contributes its records, in the order of the calls. */
  lemma RecordedInOrder(ans: Answers, p: nat, m: nat, i: nat)
    requires i < m
    ensures Recorded(ans, p, m) == Recorded(ans, p, i) + ans(p + i).records + Recorded(ans, p + i + 1, m - i - 1)
  {
    RecordedTwice(ans, p, i, 1);
    RecordedOne(ans, p + i);
    RecordedTwice(ans, p, i + 1, m - i - 1);
  }

  /** The calls of a case, phase by phase. */
  lemma CallsOfPhases(s: seq<Phase>, g: nat, c: nat, i: nat)
    requires NotFinished(s) && i < |s|
    ensures match Calls(s, g, c)[i]
      case Item(kind, g', c', k) => g' == g && c' == c && s[i] == PhaseOf(kind, k)
      case Setup(g', c') => g' == g && c' == c && s[i] == SettingUp
      case RunIt(g', c') => g' == g && c' == c && s[i] == Running
      case Teardown(g', c') => g' == g && c' == c && s[i] == TearingDown
      case _ => false
  {
  }

  /** The log at the end of a case that goes on from phase `ph`. */
  function Ahead(ans: Answers, l: Log, ph: Phase, g: nat, c: nat, tc: Case, n: nat): Log
    requires n > 0 && InRange(ph, n)
  {
    More(ans, l, Calls(Trace(ans, |l.calls|, ph, tc, n), g, c))
  }

  /** Making the call of a phase and going on to the next leads to the same end. */
  lemma AheadStep(ans: Answers, l: Log, ph: Phase, g: nat, c: nat, tc: Case, n: nat)
    requires n > 0 && InRange(ph, n) && !ph.Finished?
    ensures Ahead(ans, More(ans, l, [CallOf(ph, g, c)]), Next(ph, ans(|l.calls|), tc, n), g, c, tc, n) ==
      Ahead(ans, l, ph, g, c, tc, n)
  {
    var next := Next(ph, ans(|l.calls|), tc, n);
    var rest := Trace(ans, |l.calls| + 1, next, tc, n);
    assert Calls([ph] + rest, g, c) == [CallOf(ph, g, c)] + Calls(rest, g, c);
    MoreTwice(ans, l, [CallOf(ph, g, c)], Calls(rest, g, c));
  }

  lemma AheadEnd(ans: Answers, l: Log, g: nat, c: nat, tc: Case, n: nat)
    requires n > 0
    ensures Ahead(ans, l, Finished, g, c, tc, n) == l
  {
    NoMore(ans, l);
  }

  /** Where a case goes on after a pass over the items. */
  function AfterPass(kind: Kind, ret: bool, tc: Case): Phase {
    match kind
    case Support => if ret then Enabling(0) else Finished
    case Enable => if ret then AfterEnables(tc) else Finished
    case Check => AfterChecks(tc)
    case Disable => Finished
  }

  lemma LogIsRan(ans: Answers, s: State, tc: Case, calls: seq<Call>, l: Log)
    requires InSomeGroup(s.configs) && l == More(ans, Log(s.calls, []), calls)
    ensures Ran(ans, s, tc, calls) == State(l.calls, RecordAll(NewCase(s.configs, tc.classId, tc.caseId), l.recorded))
  {
    assert l.recorded == Recorded(ans, |s.calls|, |calls|);
  }

  class Runner {
    const answers: Answers
    var calls: seq<Call>
    var configs: seq<ConfigResult>

    // the result tree as it was when the current case began, and what was recorded since
    ghost var base: seq<ConfigResult>
    ghost var recorded: seq<Assertion>

    constructor (answers: Answers)
      ensures this.answers == answers && calls == [] && configs == []
    {
      this.answers := answers;
      calls, configs, base, recorded := [], [], [], [];
    }

    /** A case is current, and the tree is what recording for it has made of it.  Veiled, because the methods that
        call callbacks only hand it on. */
    ghost predicate InCase()
      reads this
    {
      forall k: nat {:trigger Look(k)} | Look(k) :: HasCurrent(base) && configs == RecordAll(base, recorded)
    }

    ghost function Here(): Log
      reads this
    {
      Log(calls, recorded)
    }

    /** teeio_record_assertion_result: the current case, its group and its configuration count it. */
    method RecordAssertionResult(a: Assertion)
      requires InCase()
      modifies `configs, `recorded
      ensures InCase() && recorded == old(recorded) + [a]
    {
      assert Look(0);
      FrontLast(recorded, a);
      recorded := recorded + [a];
      CountAssertion(a);
    }

    method CountAssertion(a: Assertion)
      requires HasCurrent(configs)
      modifies `configs
      ensures configs == Record(old(configs), a)
    {
      var config := Last(configs);
      var group := Last(config.groups);
      var result := Last(group.cases);
      result := result.(assertions := result.assertions + [a]);
      if a.result == Passed {
        config := config.(passed := config.passed + 1);
        group := group.(passed := group.passed + 1);
        result := result.(passed := result.passed + 1);
      } else if a.result == Failed {
        config := config.(failed := config.failed + 1);
        group := group.(failed := group.failed + 1);
        result := result.(failed := result.failed + 1);
      }
      group := group.(cases := Front(group.cases) + [result]);
      config := config.(groups := Front(config.groups) + [group]);
      configs := Front(configs) + [config];
    }

    /** Calls a callback of a case, which may record assertions. */
    method Invoke(call: Call) returns (a: Answer)
      requires InCase()
      modifies `calls, `configs, `recorded
      ensures a == answers(|old(calls)|)
      ensures InCase() && Here() == More(answers, old(Here()), [call])
    {
      a := answers(|calls|);
      RecordedOne(answers, |calls|);
      assert |[call]| == 1;
      calls := calls + [call];
      RecordEach(a.records);
    }

    method RecordEach(records: seq<Assertion>)
      requires InCase()
      modifies `configs, `recorded
      ensures InCase() && recorded == old(recorded) + records
    {
      for k := 0 to |records|
        invariant InCase() && recorded == old(recorded) + records[..k]
      {
        RecordAssertionResult(records[k]);
      }
    }

    /** do_run_test_config_support, _enable, _check and _disable: a pass over the items. */
    method DoRunTestConfig(kind: Kind, g: nat, c: nat, tc: Case, n: nat) returns (ret: bool)
      requires n > 0 && InCase()
      modifies `calls, `configs, `recorded
      ensures InCase()
      ensures Ahead(answers, Here(), AfterPass(kind, ret, tc), g, c, tc, n) ==
        Ahead(answers, old(Here()), PhaseOf(kind, 0), g, c, tc, n)
    {
      ghost var goal := Ahead(answers, Here(), PhaseOf(kind, 0), g, c, tc, n);
      var item := 0;
      ret := true;
      while ret && item < n
        invariant InCase() && item <= n
        invariant var next := if ret && item < n then PhaseOf(kind, item) else AfterPass(kind, ret, tc);
          Ahead(answers, Here(), next, g, c, tc, n) == goal
        decreases n - item, ret
      {
        AheadStep(answers, Here(), PhaseOf(kind, item), g, c, tc, n);
        var a := Invoke(Item(kind, g, c, item));
        ret := a.ret;
        item := item + 1;
      }
    }

    /** do_run_test_case */
    method DoRunTestCase(g: nat, c: nat, tc: Case, n: nat)
      requires n > 0 && InCase()
      modifies `calls, `configs, `recorded
      ensures InCase() && Here() == More(answers, old(Here()), Calls(CaseTrace(answers, |old(calls)|, tc, n), g, c))
    {
      NoMore(answers, Here());
      if tc.skip {
        return;
      }
      ghost var goal := Ahead(answers, Here(), Supporting(0), g, c, tc, n);
      var ret := DoRunTestConfig(Support, g, c, tc, n);
      AheadEnd(answers, Here(), g, c, tc, n);
      if !ret {
        return;
      }
      ret := DoRunTestConfig(Enable, g, c, tc, n);
      AheadEnd(answers, Here(), g, c, tc, n);
      if !ret {
        return;
      }
      RunEnabled(g, c, tc, n);
    }

    /** The rest of do_run_test_case, once all items are enabled. */
    method RunEnabled(g: nat, c: nat, tc: Case, n: nat)
      requires n > 0 && InCase()
      modifies `calls, `configs, `recorded
      ensures InCase() && Here() == Ahead(answers, old(Here()), AfterEnables(tc), g, c, tc, n)
    {
      var skip := false;
      if tc.hasSetup {
        AheadStep(answers, Here(), SettingUp, g, c, tc, n);
        var a := Invoke(Setup(g, c));
        skip := !a.ret || a.skip;
      }
      if !skip && tc.hasRun {
        AheadStep(answers, Here(), Running, g, c, tc, n);
        var _ := Invoke(RunIt(g, c));
      }
      if !skip && tc.checkRequired {
        var _ := DoRunTestConfig(Check, g, c, tc, n);
      }
      // TestCaseDone
      if tc.hasTeardown {
        AheadStep(answers, Here(), TearingDown, g, c, tc, n);
        var _ := Invoke(Teardown(g, c));
      }
      var _ := DoRunTestConfig(Disable, g, c, tc, n);
      AheadEnd(answers, Here(), g, c, tc, n);
    }

    /** Allocates the result of a case, which becomes the current one. */
    method AllocRunTestCaseResult(tc: Case)
      requires InSomeGroup(configs)
      modifies `configs, `base, `recorded
      ensures InCase() && recorded == [] && base == NewCase(old(configs), tc.classId, tc.caseId) == configs
    {
      var config := Last(configs);
      var group := Last(config.groups);
      group := group.(cases := group.cases + [CaseResult(tc.classId, tc.caseId, 0, 0, [])]);
      config := config.(groups := Front(config.groups) + [group]);
      configs := Front(configs) + [config];
      base, recorded := configs, [];
    }

    /** One turn of the loop over the cases of a group. */
    method RunCase(g: nat, c: nat, tc: Case, n: nat, ok: bool)
      requires n > 0 && InSomeGroup(configs)
      modifies `calls, `configs, `base, `recorded
      ensures State(calls, configs) ==
        Ran(answers, old(State(calls, configs)), tc, CallsIf(ok, CaseScript(answers, n), |old(calls)|, g, c, tc))
    {
      ghost var s := State(calls, configs);
      AllocRunTestCaseResult(tc);
      NoMore(answers, Here());
      if ok {
        DoRunTestCase(g, c, tc, n);
      }
      LogIsRan(answers, s, tc, CallsIf(ok, CaseScript(answers, n), |s.calls|, g, c, tc), Here());
      assert Look(0);
    }

    /** do_run_test_group, with the allocation of its result. */
    method DoRunTestGroup(g: nat, cases: seq<Case>, n: nat)
      requires n > 0 && configs != []
      modifies this
      ensures State(calls, configs) == AfterGroup(answers, old(State(calls, configs)), g, cases, CaseScript(answers, n))
    {
      configs := Front(configs) + [Last(configs).(groups := Last(configs).groups + [GroupResult(0, 0, [])])];
      if cases == [] {
        return;
      }
      var ok := answers(|calls|).ret;
      calls := calls + [GroupSetup(g)];
      ghost var start := State(calls, configs);
      for c := 0 to |cases|
        invariant InSomeGroup(configs)
        invariant State(calls, configs) == AfterCases(answers, start, g, cases, c, CaseScript(answers, n), ok)
      {
        CasesStep(answers, start, g, cases, c + 1, CaseScript(answers, n), ok);
        RunCase(g, c, cases[c], n, ok);
      }
      if ok {
        calls := calls + [GroupTeardown(g)];
      }
    }

    /** do_run_test_suite.  The pointer to the next group is not set back for the next configuration. */
    method DoRunTestSuite(suite: Suite)
      requires Planned(suite) && calls == [] && configs == []
      modifies this
      ensures State(calls, configs) == AfterConfigs(answers, suite, |suite.configs|)
    {
      var group := 0;
      for k := 0 to |suite.configs|
        invariant State(calls, configs) == AfterConfigs(answers, suite, k)
        invariant group == if k == 0 then 0 else |suite.groups|
      {
        configs := configs + [ConfigResult(suite.configs[k].id, 0, 0, [])];
        group := RunGroups(suite.groups, group, suite.configs[k].items);
      }
    }

    /** The groups from the one that is next, which is the first or none. */
    method RunGroups(groups: seq<seq<Case>>, next: nat, items: nat) returns (group: nat)
      requires configs != [] && items > 0 && (next == 0 || next == |groups|)
      modifies this
      ensures group == |groups|
      ensures State(calls, configs) ==
        if next == 0 then AfterGroups(answers, old(State(calls, configs)), groups, |groups|, CaseScript(answers, items))
        else old(State(calls, configs))
    {
      ghost var start := State(calls, configs);
      ghost var run := CaseScript(answers, items);
      group := next;
      while group < |groups|
        invariant group <= |groups| && configs != []
        invariant State(calls, configs) == if next == 0 then AfterGroups(answers, start, groups, group, run) else start
        invariant next != 0 ==> group == |groups|
      {
        GroupsStep(answers, start, groups, group + 1, run);
        DoRunTestGroup(group, groups[group], items);
        group := group + 1;
      }
    }
  }
}
