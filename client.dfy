/** The Autobahn client as the source runs it: the globals `state`,
    `current_case`, `server_case_count` and `global_return` are fields
    that the callbacks and phase functions update in place, and the test
    and skip lists are the heap buffers `run_cases` replaces. Each method is
    proved against the function of `Session` that specifies it. */
module Client {
  import opened RangeMerger
  import opened Linebreak
  import opened Session

  class Autobahn {
    /** The transport, the JSON decoder and `atoi`. */
    const env: Env
    /** The argument block. */
    const cfg: Config

    var state: State
    var currentCase: int
    var serverCaseCount: int
    var globalReturn: int
    /** The URLs connected to so far, the frames echoed and the banners shown. */
    var requests: seq<Request>
    var sent: seq<Frame>
    var shown: seq<Banner>
    /** `args.tests` and `args.skip`. */
    var tests: array<int>
    var skip: array<int>

    /** The globals as a value. */
    function View(): Globals
      reads this
    {
      Globals(state, currentCase, serverCaseCount, globalReturn, requests, sent, shown)
    }

    /** Start-up: zero-initialised globals, `current_case` -1, the lists as
        the argument parser left them. */
    constructor (env: Env, cfg: Config, tests: seq<int>, skip: seq<int>)
      ensures View() == Initial
      ensures this.env == env && this.cfg == cfg
      ensures fresh(this.tests) && fresh(this.skip)
      ensures this.tests[..] == tests && this.skip[..] == skip
    {
      this.env := env;
      this.cfg := cfg;
      state := Test;
      currentCase := -1;
      serverCaseCount := 0;
      globalReturn := 0;
      requests := [];
      sent := [];
      shown := [];
      this.tests := new int[|tests|](i requires 0 <= i < |tests| => tests[i]);
      this.skip := new int[|skip|](i requires 0 <= i < |skip| => skip[i]);
    }

    /** `parse_test_info`. */
    method ParseTestInfo(payload: Payload)
      modifies this
      ensures View() == old(View()).(shown := old(shown) + TestInfoShown(env, cfg, old(View()), payload))
      ensures tests == old(tests) && skip == old(skip)
    {
      match env.infoJson(payload)
      case InfoMalformed =>
      case Info(id, description) =>
        if cfg.compact {
          shown := shown + [Banner(currentCase, id, None)];
        } else {
          var text := PrintLinebreak(description, 80);
          shown := shown + [Banner(currentCase, id, Some(text))];
        }
    }

    /** `parse_test_status`. */
    method ParseTestStatus(payload: Payload)
      modifies this
      ensures View() == old(View()).(globalReturn := StatusVerdict(old(globalReturn), env.statusJson(payload)))
      ensures tests == old(tests) && skip == old(skip)
    {
      match env.statusJson(payload)
      case StatusMalformed =>
      case Status(behavior) =>
        if !(Strcmp(behavior, "OK") == 0 || Strcmp(behavior, "INFORMATIONAL") == 0) {
          globalReturn := -1;
        }
    }

    /** `onmsg`. */
    method OnMsg(m: Frame)
      modifies this
      ensures View() == Dispatch(env, cfg, old(View()), m)
      ensures tests == old(tests) && skip == old(skip)
    {
      match state
      case Report =>
      case TestInfo =>
        ParseTestInfo(m.payload);
      case TestStatus =>
        ParseTestStatus(m.payload);
      case Count =>
        serverCaseCount := env.atoi(m.payload);
      case Test =>
        sent := sent + [m];
    }

    /** `do_connect(url)`: 0 when the connection was made and its messages
        were dispatched, -1 when it was refused. */
    method DoConnect(url: Request) returns (ret: int)
      modifies this
      ensures (View(), ret == 0) == Connect(env, cfg, old(View()), url)
      ensures ret == 0 || ret == -1
      ensures tests == old(tests) && skip == old(skip)
    {
      var conn := env.server(|requests|, url);
      requests := requests + [url];
      if conn.Refused? {
        return -1;
      }
      var msgs := conn.messages;
      ghost var g1 := View();
      var i := 0;
      while i < |msgs|
        invariant 0 <= i <= |msgs|
        invariant Deliver(env, cfg, g1, msgs) == Deliver(env, cfg, View(), msgs[i..])
        invariant tests == old(tests) && skip == old(skip)
      {
        DeliverStep(env, cfg, View(), msgs, i);
        OnMsg(msgs[i]);
        i := i + 1;
      }
      assert msgs[i..] == [];
      ret := 0;
    }

    /** `update_reports`. */
    method UpdateReports() returns (ret: int)
      modifies this
      ensures (View(), ret) == Session.UpdateReports(env, cfg, old(View()))
      ensures tests == old(tests) && skip == old(skip)
    {
      state := Report;
      ret := DoConnect(UpdateReportsUrl);
    }

    /** `get_case_count`. */
    method GetCaseCount() returns (ret: int)
      modifies this
      ensures (View(), ret) == Session.GetCaseCount(env, cfg, old(View()))
      ensures tests == old(tests) && skip == old(skip)
    {
      state := Count;
      var rc := DoConnect(CaseCountUrl);
      if rc != 0 {
        ret := -1;
      } else {
        ret := serverCaseCount;
      }
    }

    /** `run_case(testcase)`: 0 when all three phases connected. */
    method RunCase(testcase: int) returns (ret: int)
      modifies this
      ensures (View(), ret == 0) == Session.RunCase(env, cfg, old(View()), testcase)
      ensures ret == 0 || ret == -1
      ensures tests == old(tests) && skip == old(skip)
    {
      currentCase := testcase;
      state := TestInfo;
      ret := DoConnect(CaseInfoUrl(testcase));
      if ret != 0 {
        return;
      }
      state := Test;
      ret := DoConnect(RunCaseUrl(testcase));
      if ret != 0 {
        return;
      }
      state := TestStatus;
      ret := DoConnect(CaseStatusUrl(testcase));
    }

    /** `skip_case(testcase)`: 1 when the skip list holds the case, else 0. */
    method SkipCase(testcase: int) returns (r: int)
      ensures r == 1 <==> testcase in skip[..]
      ensures r == 0 || r == 1
    {
      var j := 0;
      while j < skip.Length
        invariant 0 <= j <= skip.Length
        invariant testcase !in skip[..j]
      {
        if skip[j] == testcase {
          return 1;
        }
        j := j + 1;
      }
      assert skip[..j] == skip[..];
      return 0;
    }

    /** The test-list set-up of `run_cases`: `--all` replaces the list by
        1 .. count, a range merges into it; false when the merge rejects the
        range, and then the list is left alone. */
    method SettleTests(maxCase: nat) returns (ok: bool)
      modifies this
      ensures View() == old(View()) && skip == old(skip)
      ensures var t := TestList(cfg, maxCase, old(tests[..]));
        (ok <==> t.Some?) && tests[..] == (if ok then t.value else old(tests[..]))
    {
      if cfg.all {
        tests := AllCases(maxCase);
      } else if cfg.rangeCount != 0 {
        var rc, merged := CombineRangeAndValues(maxCase, cfg.range, cfg.rangeCount, tests);
        if rc != 0 {
          return false;
        }
        tests := merged;
      }
      return true;
    }

    /** The skip-list set-up of `run_cases`: a skip range merges into the
        skip list; false when the merge rejects the range. */
    method SettleSkip(maxCase: nat) returns (ok: bool)
      modifies this
      ensures View() == old(View()) && tests == old(tests)
      ensures var sk := SkipList(cfg, maxCase, old(skip[..]));
        (ok <==> sk.Some?) && skip[..] == (if ok then sk.value else old(skip[..]))
    {
      if cfg.skipRangeCount != 0 {
        var rc, merged := CombineRangeAndValues(maxCase, cfg.skipRange, cfg.skipRangeCount, skip);
        if rc != 0 {
          return false;
        }
        skip := merged;
      }
      return true;
    }

    /** The case loop of `run_cases`: every listed case that `skip_case`
        does not reject, up to the first that fails. */
    method RunLoop() returns (ok: bool)
      modifies this
      ensures (View(), ok) == RunList(env, cfg, old(View()), old(tests[..]), old(skip[..]))
      ensures tests == old(tests) && skip == old(skip)
    {
      ghost var g0 := View();
      ghost var cases := tests[..];
      ghost var skips := skip[..];
      var i := 0;
      while i < tests.Length
        invariant 0 <= i <= tests.Length
        invariant tests == old(tests) && skip == old(skip)
        invariant tests[..] == cases && skip[..] == skips
        invariant RunList(env, cfg, g0, cases, skips) == RunList(env, cfg, View(), cases[i..], skips)
      {
        RunListStep(env, cfg, View(), cases, skips, i);
        var skipped := SkipCase(tests[i]);
        if skipped == 0 {
          var rc := RunCase(tests[i]);
          if rc != 0 {
            return false;
          }
        }
        i := i + 1;
      }
      assert cases[i..] == [];
      return true;
    }

    /** `run_cases`. */
    method RunCases() returns (ret: int)
      modifies this
      ensures var r := Session.RunCases(env, cfg, old(View()), old(tests[..]), old(skip[..]));
        View() == r.g && ret == r.rc && tests[..] == r.tests && skip[..] == r.skip
    {
      ghost var g0 := View();
      ghost var tests0 := tests[..];
      ghost var skip0 := skip[..];
      var maxCase := GetCaseCount();
      ghost var g1 := View();
      RunCasesSteps(env, cfg, g0, tests0, skip0, g1, maxCase);
      if maxCase < 0 {
        return -1;
      }
      var testsOk := SettleTests(maxCase);
      if !testsOk {
        return -1;
      }
      var skipOk := SettleSkip(maxCase);
      if !skipOk {
        return -1;
      }
      var ok := RunLoop();
      if !ok {
        return -1;
      }
      var _ := UpdateReports();
      ret := 0;
    }

    /** The perform step of `main` and its exit status. */
    method Perform(reports: bool) returns (status: int)
      requires globalReturn == 0 || globalReturn == -1
      modifies this
      ensures var o := Session.Perform(env, cfg, old(View()), reports, old(tests[..]), old(skip[..]));
        View() == o.g && status == o.status && tests[..] == o.tests && skip[..] == o.skip
    {
      var ret := 0;
      if reports {
        ret := UpdateReports();
      } else {
        var _ := RunCases();
      }
      UpdateReportsResult(env, cfg, old(View()));
      RunCasesVerdict(env, cfg, old(View()), old(tests[..]), old(skip[..]));
      status := ExitStatus(ret, globalReturn);
    }
  }

  /** One message of the connection. */
  lemma DeliverStep(env: Env, cfg: Config, g: Globals, msgs: seq<Frame>, i: nat)
    requires i < |msgs|
    ensures Deliver(env, cfg, g, msgs[i..]) == Deliver(env, cfg, Dispatch(env, cfg, g, msgs[i]), msgs[i + 1..])
  {
    assert msgs[i..][0] == msgs[i];
    assert msgs[i..][1..] == msgs[i + 1..];
  }

  /** One listed case of the loop, run or skipped. */
  lemma RunListStep(env: Env, cfg: Config, g: Globals, cases: seq<int>, skip: seq<int>, i: nat)
    requires i < |cases|
    ensures RunList(env, cfg, g, cases[i..], skip) ==
      if cases[i] in skip then RunList(env, cfg, g, cases[i + 1..], skip)
      else
        var (g1, ok) := Session.RunCase(env, cfg, g, cases[i]);
        if !ok then (g1, false) else RunList(env, cfg, g1, cases[i + 1..], skip)
  {
    assert cases[i..][0] == cases[i];
    assert cases[i..][1..] == cases[i + 1..];
  }
}
