/** The result tree of a test run: configurations, groups, cases and their recorded assertions,
    with pass and fail counters kept at three levels. */
module TestResults {

  datatype Verdict = NotTested | Passed | Failed

  /** A recorded line: the outcome of a check, or a separator between checks. */
  datatype Assertion = Assertion(isTest: bool, id: int, result: Verdict)

  datatype CaseResult = CaseResult(classId: nat, caseId: nat, passed: nat, failed: nat, assertions: seq<Assertion>)
  datatype GroupResult = GroupResult(passed: nat, failed: nat, cases: seq<CaseResult>)
  datatype ConfigResult = ConfigResult(configId: int, passed: nat, failed: nat, groups: seq<GroupResult>)

  function Last<T>(s: seq<T>): T requires s != [] { s[|s| - 1] }
  function Front<T>(s: seq<T>): seq<T> requires s != [] { s[..|s| - 1] }

  // ------------------------------------------------------------ recording

  /** The case whose results are being recorded is the last of the last group of the last configuration. */
  predicate HasCurrent(configs: seq<ConfigResult>) {
    configs != [] && Last(configs).groups != [] && Last(Last(configs).groups).cases != []
  }

  function Current(configs: seq<ConfigResult>): CaseResult
    requires HasCurrent(configs)
  {
    Last(Last(Last(configs).groups).cases)
  }

  function One(v: Verdict, w: Verdict): nat { if v == w then 1 else 0 }

  function InCase(c: CaseResult, a: Assertion): CaseResult {
    c.(passed := c.passed + One(a.result, Passed), failed := c.failed + One(a.result, Failed),
      assertions := c.assertions + [a])
  }

  function InGroup(g: GroupResult, a: Assertion): GroupResult
    requires g.cases != []
  {
    GroupResult(g.passed + One(a.result, Passed), g.failed + One(a.result, Failed),
      Front(g.cases) + [InCase(Last(g.cases), a)])
  }

  function InConfig(c: ConfigResult, a: Assertion): ConfigResult
    requires c.groups != [] && Last(c.groups).cases != []
  {
    c.(passed := c.passed + One(a.result, Passed), failed := c.failed + One(a.result, Failed),
       groups := Front(c.groups) + [InGroup(Last(c.groups), a)])
  }

  /** teeio_record_assertion_result: the assertion is appended, and all three levels count it. */
  function Record(configs: seq<ConfigResult>, a: Assertion): (r: seq<ConfigResult>)
    requires HasCurrent(configs)
    ensures HasCurrent(r) && Current(r).assertions == Current(configs).assertions + [a]
  {
    Front(configs) + [InConfig(Last(configs), a)]
  }

  function RecordAll(configs: seq<ConfigResult>, s: seq<Assertion>): (r: seq<ConfigResult>)
    requires HasCurrent(configs)
    ensures HasCurrent(r)
  {
    if s == [] then configs else Record(RecordAll(configs, Front(s)), Last(s))
  }

  // ------------------------------------------------------------ conservation

  function Count(s: seq<Assertion>, v: Verdict): nat {
    if s == [] then 0 else Count(Front(s), v) + One(Last(s).result, v)
  }

  function CasesPassed(s: seq<CaseResult>): nat { if s == [] then 0 else CasesPassed(Front(s)) + Last(s).passed }
  function CasesFailed(s: seq<CaseResult>): nat { if s == [] then 0 else CasesFailed(Front(s)) + Last(s).failed }
  function GroupsPassed(s: seq<GroupResult>): nat { if s == [] then 0 else GroupsPassed(Front(s)) + Last(s).passed }
  function GroupsFailed(s: seq<GroupResult>): nat { if s == [] then 0 else GroupsFailed(Front(s)) + Last(s).failed }

  predicate CaseCounts(c: CaseResult) {
    c.passed == Count(c.assertions, Passed) && c.failed == Count(c.assertions, Failed)
  }

  predicate GroupCounts(g: GroupResult) {
    && g.passed == CasesPassed(g.cases) && g.failed == CasesFailed(g.cases)
    && forall k | 0 <= k < |g.cases| :: CaseCounts(g.cases[k])
  }

  predicate ConfigCounts(c: ConfigResult) {
    && c.passed == GroupsPassed(c.groups) && c.failed == GroupsFailed(c.groups)
    && forall k | 0 <= k < |c.groups| :: GroupCounts(c.groups[k])
  }

  /** Every counter is the sum over the level below it, down to the recorded assertions. */
  predicate Conserved(configs: seq<ConfigResult>) { forall k | 0 <= k < |configs| :: ConfigCounts(configs[k]) }

  lemma FrontLast<T>(s: seq<T>, x: T)
    ensures Front(s + [x]) == s && Last(s + [x]) == x
  {
  }

  lemma InCaseCounts(c: CaseResult, a: Assertion)
    requires CaseCounts(c)
    ensures CaseCounts(InCase(c, a))
  {
    FrontLast(c.assertions, a);
  }

  lemma InGroupCounts(g: GroupResult, a: Assertion)
    requires g.cases != [] && GroupCounts(g)
    ensures GroupCounts(InGroup(g, a))
  {
    InCaseCounts(Last(g.cases), a);
    SameButLast(g.cases, InCase(Last(g.cases), a));
  }

  lemma SameButLast(s: seq<CaseResult>, c: CaseResult)
    requires s != [] && CaseCounts(c) && forall k | 0 <= k < |s| :: CaseCounts(s[k])
    ensures var s' := Front(s) + [c];
      && CasesPassed(s') == CasesPassed(s) - Last(s).passed + c.passed
      && CasesFailed(s') == CasesFailed(s) - Last(s).failed + c.failed
      && forall k | 0 <= k < |s'| :: CaseCounts(s'[k])
  {
    FrontLast(Front(s), c);
    forall k | 0 <= k < |s| ensures CaseCounts((Front(s) + [c])[k]) {
      if k < |s| - 1 {
        assert (Front(s) + [c])[k] == s[k];
      }
    }
  }

  lemma InConfigCounts(c: ConfigResult, a: Assertion)
    requires c.groups != [] && Last(c.groups).cases != [] && ConfigCounts(c)
    ensures ConfigCounts(InConfig(c, a))
  {
    InGroupCounts(Last(c.groups), a);
    FrontLast(Front(c.groups), InGroup(Last(c.groups), a));
  }

  /** Recording keeps the counters in agreement. */
  lemma RecordConserves(configs: seq<ConfigResult>, a: Assertion)
    requires HasCurrent(configs) && Conserved(configs)
    ensures Conserved(Record(configs, a))
  {
    InConfigCounts(Last(configs), a);
  }

  lemma {:induction false} RecordAllConserves(configs: seq<ConfigResult>, s: seq<Assertion>)
    requires HasCurrent(configs) && Conserved(configs)
    ensures Conserved(RecordAll(configs, s))
  {
    if s != [] {
      RecordAllConserves(configs, Front(s));
      RecordConserves(RecordAll(configs, Front(s)), Last(s));
    }
  }

  // So does beginning a new case, a new group or a new configuration with empty counters.

  function NewCase(configs: seq<ConfigResult>, classId: nat, caseId: nat): (r: seq<ConfigResult>)
    requires configs != [] && Last(configs).groups != []
    ensures HasCurrent(r)
  {
    var c := Last(configs);
    var g := Last(c.groups);
    Front(configs) + [c.(groups := Front(c.groups) + [g.(cases := g.cases + [CaseResult(classId, caseId, 0, 0, [])])])]
  }

  function NewGroup(configs: seq<ConfigResult>): (r: seq<ConfigResult>)
    requires configs != []
    ensures r != [] && Last(r).groups != []
  {
    Front(configs) + [Last(configs).(groups := Last(configs).groups + [GroupResult(0, 0, [])])]
  }

  lemma NewCaseConserves(configs: seq<ConfigResult>, classId: nat, caseId: nat)
    requires configs != [] && Last(configs).groups != [] && Conserved(configs)
    ensures Conserved(NewCase(configs, classId, caseId))
  {
    var c := Last(configs);
    var g := Last(c.groups);
    var g' := g.(cases := g.cases + [CaseResult(classId, caseId, 0, 0, [])]);
    assert ConfigCounts(c) && GroupCounts(g);
    FrontLast(g.cases, CaseResult(classId, caseId, 0, 0, []));
    assert GroupCounts(g');
    FrontLast(Front(c.groups), g');
    assert ConfigCounts(c.(groups := Front(c.groups) + [g']));
  }

  lemma NewGroupConserves(configs: seq<ConfigResult>)
    requires configs != [] && Conserved(configs)
    ensures Conserved(NewGroup(configs))
  {
    var c := Last(configs);
    FrontLast(c.groups, GroupResult(0, 0, []));
    assert ConfigCounts(c.(groups := c.groups + [GroupResult(0, 0, [])]));
  }

  lemma {:induction false} RecordAllAppends(configs: seq<ConfigResult>, s: seq<Assertion>)
    requires HasCurrent(configs)
    ensures Current(RecordAll(configs, s)).assertions == Current(configs).assertions + s
  {
    if s != [] {
      RecordAllAppends(configs, Front(s));
      assert s == Front(s) + [Last(s)];
    }
  }

  // ------------------------------------------------------------ totals

  function InCases(s: seq<CaseResult>): seq<Assertion> {
    if s == [] then [] else InCases(Front(s)) + Last(s).assertions
  }
  function InGroups(s: seq<GroupResult>): seq<Assertion> {
    if s == [] then [] else InGroups(Front(s)) + InCases(Last(s).cases)
  }
  function InConfigs(s: seq<ConfigResult>): seq<Assertion> {
    if s == [] then [] else InConfigs(Front(s)) + InGroups(Last(s).groups)
  }

  lemma {:induction false} CountBoth(s: seq<Assertion>, t: seq<Assertion>, v: Verdict)
    ensures Count(s + t, v) == Count(s, v) + Count(t, v)
  {
    if t == [] {
      assert s + t == s;
    } else {
      CountBoth(s, Front(t), v);
      assert Front(s + t) == s + Front(t) && Last(s + t) == Last(t);
    }
  }

  lemma {:induction false} CasesTotal(s: seq<CaseResult>)
    requires forall k | 0 <= k < |s| :: CaseCounts(s[k])
    ensures CasesPassed(s) == Count(InCases(s), Passed) && CasesFailed(s) == Count(InCases(s), Failed)
  {
    if s != [] {
      CasesTotal(Front(s));
      CountBoth(InCases(Front(s)), Last(s).assertions, Passed);
      CountBoth(InCases(Front(s)), Last(s).assertions, Failed);
    }
  }

  lemma {:induction false} GroupsTotal(s: seq<GroupResult>)
    requires forall k | 0 <= k < |s| :: GroupCounts(s[k])
    ensures GroupsPassed(s) == Count(InGroups(s), Passed) && GroupsFailed(s) == Count(InGroups(s), Failed)
  {
    if s != [] {
      GroupsTotal(Front(s));
      CasesTotal(Last(s).cases);
      CountBoth(InGroups(Front(s)), InCases(Last(s).cases), Passed);
      CountBoth(InGroups(Front(s)), InCases(Last(s).cases), Failed);
    }
  }

  function ConfigsPassed(s: seq<ConfigResult>): nat { if s == [] then 0 else ConfigsPassed(Front(s)) + Last(s).passed }
  function ConfigsFailed(s: seq<ConfigResult>): nat { if s == [] then 0 else ConfigsFailed(Front(s)) + Last(s).failed }

  /** The totals of a suite count every assertion recorded anywhere in the tree, once. */
  lemma {:induction false} SuiteTotal(s: seq<ConfigResult>)
    requires Conserved(s)
    ensures ConfigsPassed(s) == Count(InConfigs(s), Passed) && ConfigsFailed(s) == Count(InConfigs(s), Failed)
  {
    if s != [] {
      SuiteTotal(Front(s));
      GroupsTotal(Last(s).groups);
      CountBoth(InConfigs(Front(s)), InGroups(Last(s).groups), Passed);
      CountBoth(InConfigs(Front(s)), InGroups(Last(s).groups), Failed);
    }
  }

  /** test_suite_cases_statics, on counters that are conserved. */
  method TestSuiteCasesStatics(configs: seq<ConfigResult>) returns (passed: nat, failed: nat)
    requires Conserved(configs)
    ensures passed == Count(InConfigs(configs), Passed) && failed == Count(InConfigs(configs), Failed)
  {
    passed, failed := 0, 0;
    for k := 0 to |configs|
      invariant passed == ConfigsPassed(configs[..k]) && failed == ConfigsFailed(configs[..k])
    {
      assert Front(configs[..k + 1]) == configs[..k];
      passed := passed + configs[k].passed;
      failed := failed + configs[k].failed;
    }
    assert configs[..|configs|] == configs;
    SuiteTotal(configs);
  }

  // ------------------------------------------------------------ verdicts

  predicate Has(s: seq<Assertion>, isTest: bool, v: Verdict) {
    exists k :: 0 <= k < |s| && s[k].isTest == isTest && s[k].result == v
  }

  /** teeio_test_case_result: only checks count, and one failure fails the case. */
  function Judged(s: seq<Assertion>): Verdict {
    if Has(s, true, Failed) then Failed else if Has(s, true, Passed) then Passed else NotTested
  }

  method TestCaseResult(c: CaseResult) returns (v: Verdict)
    ensures v == Judged(c.assertions)
  {
    var pass, failed := 0, 0;
    for k := 0 to |c.assertions|
      invariant pass >= 0 && failed >= 0
      invariant pass > 0 <==> Has(c.assertions[..k], true, Passed)
      invariant failed > 0 <==> Has(c.assertions[..k], true, Failed)
    {
      var a := c.assertions[k];
      HasNext(c.assertions, k, Passed);
      HasNext(c.assertions, k, Failed);
      if a.isTest {
        if a.result == Passed {
          pass := pass + 1;
        } else if a.result == Failed {
          failed := failed + 1;
        }
      }
    }
    assert c.assertions[..|c.assertions|] == c.assertions;
    v := if failed > 0 then Failed else if pass > 0 then Passed else NotTested;
  }

  lemma HasNext(s: seq<Assertion>, k: nat, v: Verdict)
    requires k < |s|
    ensures Has(s[..k + 1], true, v) <==> Has(s[..k], true, v) || (s[k].isTest && s[k].result == v)
  {
    if Has(s[..k], true, v) {
      var j :| 0 <= j < k && s[..k][j].isTest && s[..k][j].result == v;
      assert s[..k + 1][j] == s[..k][j];
    }
    if s[k].isTest && s[k].result == v {
      assert s[..k + 1][k] == s[k];
    }
  }

  /** What print_test_results prints, from the counters. */
  function Printed(c: CaseResult): Verdict {
    if c.failed == 0 && c.passed == 0 then NotTested else if c.failed == 0 && c.passed > 0 then Passed else Failed
  }

  lemma {:induction false} CountPositive(s: seq<Assertion>, v: Verdict)
    ensures Count(s, v) > 0 <==> Has(s, true, v) || Has(s, false, v)
  {
    if s != [] {
      CountPositive(Front(s), v);
      var n := |s| - 1;
      if b :| Has(Front(s), b, v) {
        var j :| 0 <= j < n && Front(s)[j].isTest == b && Front(s)[j].result == v;
        assert s[j] == Front(s)[j];
      }
      if s[n].result == v {
        assert Has(s, s[n].isTest, v);
      }
      if Count(s, v) == 0 {
        forall j | 0 <= j < |s| ensures s[j].result != v {
          if j < n {
            assert Front(s)[j] == s[j];
          }
        }
      }
    }
  }

  /** The printed verdict is the judged one if and only if the separators do not tip it: either a
      check failed, or no separator failed and one passed only beside a check that passed. */
  lemma VerdictsAgreeExactly(c: CaseResult)
    requires CaseCounts(c)
    ensures Printed(c) == Judged(c.assertions) <==>
      (Has(c.assertions, true, Failed) ||
       (!Has(c.assertions, false, Failed) && (Has(c.assertions, false, Passed) ==> Has(c.assertions, true, Passed))))
  {
    CountPositive(c.assertions, Passed);
    CountPositive(c.assertions, Failed);
  }

  /** So they agree when separators are recorded as not tested. */
  lemma VerdictsAgree(c: CaseResult)
    requires CaseCounts(c) && forall k | 0 <= k < |c.assertions| && !c.assertions[k].isTest ::
      c.assertions[k].result == NotTested
    ensures Printed(c) == Judged(c.assertions)
  {
    VerdictsAgreeExactly(c);
  }
}
