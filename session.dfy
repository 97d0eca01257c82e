/** The orchestration of the Autobahn client as functions of its global
    state: the phase dispatcher `onmsg`, one phase connection `do_connect`,
    `get_case_count`, `run_case`, `update_reports` and `run_cases`. The
    external collaborators (the WebSocket transport, the JSON decoder and
    `atoi`) are the fields of `Env`. These functions specify the methods of
    `Client.Autobahn`, and the lemmas below state what the source promises
    about them. */
module Session {
  import opened RangeMerger
  import opened Linebreak

  newtype byte = x: int | 0 <= x < 256

  type Payload = seq<byte>

  /** `libws_autobahn_state_t`: what the messages of the open connection mean. */
  datatype State = Test | Report | TestInfo | TestStatus | Count

  /** A WebSocket message, received or sent: its bytes (and so its length)
      and whether it is binary. */
  datatype Frame = Frame(payload: Payload, binary: bool)

  /** The URLs the client connects to. */
  datatype Request =
    | CaseCountUrl                  // getCaseCount
    | CaseInfoUrl(caseNo: int)      // getCaseInfo?case=N&agent=...
    | RunCaseUrl(caseNo: int)       // runCase?case=N&agent=...
    | CaseStatusUrl(caseNo: int)    // getCaseStatus?case=N&agent=...
    | UpdateReportsUrl              // updateReports?agent=...

  /** The transport's answer to one connection attempt: refused (`do_connect`
      returns -1), or served, with the messages delivered before the server
      closed it or the per-phase timer fired. */
  datatype Connection = Refused | Served(messages: seq<Frame>)

  /** What the JSON decoder makes of a test-info message. */
  datatype InfoReply = Info(id: string, description: string) | InfoMalformed

  /** What the JSON decoder makes of a test-status message (a load error
      and an unpack error behave the same). */
  datatype StatusReply = Status(behavior: string) | StatusMalformed

  /** The collaborators: `server(k, url)` answers the k-th connection of the
      run, counting from 0. */
  datatype Env = Env(
    server: (nat, Request) -> Connection,
    atoi: Payload -> int,
    infoJson: Payload -> InfoReply,
    statusJson: Payload -> StatusReply)

  /** The parts of the argument block the core reads. */
  datatype Config = Config(
    all: bool,
    range: Pair, rangeCount: nat,
    skipRange: Pair, skipRangeCount: nat,
    compact: bool)

  /** What `parse_test_info` shows of one case: its number and id, and in
      the non-compact layout the description as `print_linebreak` prints it. */
  datatype Banner = Banner(caseNo: int, id: string, description: Option<string>)

  /** The globals `state`, `current_case`, `server_case_count` and
      `global_return`, with the connections opened so far, the frames sent
      back and the banners shown. */
  datatype Globals = Globals(
    state: State,
    currentCase: int,
    serverCaseCount: int,
    globalReturn: int,
    requests: seq<Request>,
    sent: seq<Frame>,
    shown: seq<Banner>)

  /** The globals at start-up: zero-initialised `state` is TEST. */
  const Initial := Globals(Test, -1, 0, 0, [], [], [])

  /** `strcmp` on two C strings: zero exactly when they are equal. */
  function Strcmp(a: string, b: string): (r: int)
    ensures r == 0 <==> a == b
    decreases |a|
  {
    if a == [] then (if b == [] then 0 else -1)
    else if b == [] then 1
    else if a[0] != b[0] then a[0] as int - b[0] as int
    else
      assert a == [a[0]] + a[1..] && b == [b[0]] + b[1..];
      Strcmp(a[1..], b[1..])
  }

  /** The verdict rule of `parse_test_status`. */
  function IsPass(behavior: string): (r: bool)
    ensures r <==> behavior == "OK" || behavior == "INFORMATIONAL"
  {
    Strcmp(behavior, "OK") == 0 || Strcmp(behavior, "INFORMATIONAL") == 0
  }

  /** `global_return` after one test-status message. */
  function StatusVerdict(globalReturn: int, reply: StatusReply): (r: int)
    ensures reply.StatusMalformed? ==> r == globalReturn
    ensures reply.Status? && IsPass(reply.behavior) ==> r == globalReturn
    ensures reply.Status? && !IsPass(reply.behavior) ==> r == -1
  {
    match reply
    case StatusMalformed => globalReturn
    case Status(behavior) => if IsPass(behavior) then globalReturn else -1
  }

  /** A message that makes a case fail: a parsed behavior other than the two
      passing ones. */
  predicate Fails(reply: StatusReply)
  {
    reply.Status? && reply.behavior != "OK" && reply.behavior != "INFORMATIONAL"
  }

  /** `parse_test_info`: a banner for a decodable message, nothing otherwise. */
  function TestInfoShown(env: Env, cfg: Config, g: Globals, payload: Payload): (r: seq<Banner>)
    ensures |r| <= 1
    ensures r == [] <==> env.infoJson(payload).InfoMalformed?
    ensures r != [] ==> r[0].caseNo == g.currentCase && (r[0].description.None? <==> cfg.compact)
  {
    match env.infoJson(payload)
    case InfoMalformed => []
    case Info(id, description) =>
      [Banner(g.currentCase, id, if cfg.compact then None else Some(Wrap(description, 80)))]
  }

  /** `onmsg`: the effect of one message on the globals. */
  function Dispatch(env: Env, cfg: Config, g: Globals, m: Frame): (r: Globals)
    ensures r.state == g.state && r.currentCase == g.currentCase && r.requests == g.requests
    ensures r.sent == if g.state == Test then g.sent + [m] else g.sent
    ensures r.serverCaseCount == if g.state == Count then env.atoi(m.payload) else g.serverCaseCount
    ensures r.globalReturn == if g.state == TestStatus then StatusVerdict(g.globalReturn, env.statusJson(m.payload)) else g.globalReturn
    ensures r.shown == if g.state == TestInfo then g.shown + TestInfoShown(env, cfg, g, m.payload) else g.shown
  {
    match g.state
    case Report => g
    case TestInfo => g.(shown := g.shown + TestInfoShown(env, cfg, g, m.payload))
    case TestStatus => g.(globalReturn := StatusVerdict(g.globalReturn, env.statusJson(m.payload)))
    case Count => g.(serverCaseCount := env.atoi(m.payload))
    case Test => g.(sent := g.sent + [m])
  }

  /** The messages of one connection, dispatched in order. */
  function Deliver(env: Env, cfg: Config, g: Globals, msgs: seq<Frame>): Globals
    decreases |msgs|
  {
    if msgs == [] then g else Deliver(env, cfg, Dispatch(env, cfg, g, msgs[0]), msgs[1..])
  }

  /** `do_connect(url)`: records the connection, then dispatches what the
      server sends; the flag is false when the connection was refused. */
  function Connect(env: Env, cfg: Config, g: Globals, url: Request): (Globals, bool)
  {
    var g1 := g.(requests := g.requests + [url]);
    match env.server(|g.requests|, url)
    case Refused => (g1, false)
    case Served(msgs) => (Deliver(env, cfg, g1, msgs), true)
  }

  /** `get_case_count`: the count the server sent, or -1 when the connection
      was refused. A connection that sends nothing leaves the previous count. */
  function GetCaseCount(env: Env, cfg: Config, g: Globals): (Globals, int)
  {
    var (g1, ok) := Connect(env, cfg, g.(state := Count), CaseCountUrl);
    (g1, if ok then g1.serverCaseCount else -1)
  }

  /** `update_reports`: 0, or -1 when the connection was refused. */
  function UpdateReports(env: Env, cfg: Config, g: Globals): (Globals, int)
  {
    var (g1, ok) := Connect(env, cfg, g.(state := Report), UpdateReportsUrl);
    (g1, if ok then 0 else -1)
  }

  /** `run_case(n)`: the three phases of case n, stopping at the first
      refused connection; true when all three connected. */
  function RunCase(env: Env, cfg: Config, g: Globals, n: int): (Globals, bool)
  {
    var (g1, ok1) := Connect(env, cfg, g.(currentCase := n, state := TestInfo), CaseInfoUrl(n));
    if !ok1 then (g1, false)
    else
      var (g2, ok2) := Connect(env, cfg, g1.(state := Test), RunCaseUrl(n));
      if !ok2 then (g2, false)
      else Connect(env, cfg, g2.(state := TestStatus), CaseStatusUrl(n))
  }

  /** The case loop of `run_cases`: every listed case not in the skip list,
      in list order, up to the first case that fails to connect. */
  function RunList(env: Env, cfg: Config, g: Globals, cases: seq<int>, skip: seq<int>): (r: (Globals, bool))
    ensures Unskipped(cases, skip) == [] ==> r == (g, true)
    decreases |cases|
  {
    if cases == [] then (g, true)
    else if cases[0] in skip then RunList(env, cfg, g, cases[1..], skip)
    else
      var (g1, ok) := RunCase(env, cfg, g, cases[0]);
      if !ok then (g1, false) else RunList(env, cfg, g1, cases[1..], skip)
  }

  /** The outcome of `run_cases`: the globals, its return value and the
      test and skip lists it leaves in the argument block. */
  datatype RunResult = RunResult(g: Globals, rc: int, tests: seq<int>, skip: seq<int>)

  /** `run_cases`. */
  function RunCases(env: Env, cfg: Config, g: Globals, tests: seq<int>, skip: seq<int>): RunResult
  {
    var (g1, maxCase) := GetCaseCount(env, cfg, g);
    if maxCase < 0 then RunResult(g1, -1, tests, skip)
    else
      var t := TestList(cfg, maxCase, tests);
      var sk := SkipList(cfg, maxCase, skip);
      if t.None? then RunResult(g1, -1, tests, skip)
      else if sk.None? then RunResult(g1, -1, t.value, skip)
      else RunAndReport(env, cfg, g1, t.value, sk.value)
  }

  /** The second half of `run_cases`: the case loop, then the report
      update when every case connected. */
  function RunAndReport(env: Env, cfg: Config, g: Globals, cases: seq<int>, skip: seq<int>): RunResult
  {
    var (g1, ok) := RunList(env, cfg, g, cases, skip);
    if !ok then RunResult(g1, -1, cases, skip)
    else RunResult(UpdateReports(env, cfg, g1).0, 0, cases, skip)
  }

  /** The cases `run_cases` runs: all of them with `--all`, the merge of
      the range and the listed cases with a range, else the list as given. */
  function TestList(cfg: Config, maxCase: nat, tests: seq<int>): (r: Option<seq<int>>)
    ensures r.None? <==>
      !cfg.all && cfg.rangeCount != 0 &&
      (cfg.range[0] <= 0 || Stop(maxCase, cfg.range, cfg.rangeCount) < cfg.range[0])
  {
    if cfg.all then Some(Iota(maxCase))
    else if cfg.rangeCount != 0 then Combine(maxCase, cfg.range, cfg.rangeCount, tests)
    else Some(tests)
  }

  /** The cases `run_cases` skips: the merge of the skip range and the
      listed skips with a skip range, else the list as given. */
  function SkipList(cfg: Config, maxCase: nat, skip: seq<int>): (r: Option<seq<int>>)
    ensures r.None? <==>
      cfg.skipRangeCount != 0 &&
      (cfg.skipRange[0] <= 0 || Stop(maxCase, cfg.skipRange, cfg.skipRangeCount) < cfg.skipRange[0])
  {
    if cfg.skipRangeCount != 0 then Combine(maxCase, cfg.skipRange, cfg.skipRangeCount, skip)
    else Some(skip)
  }

  /** `run_cases` reaches its case loop: the count was fetched and both
      lists were settled. */
  predicate Ran(cfg: Config, maxCase: int, tests: seq<int>, skip: seq<int>)
  {
    maxCase >= 0 && TestList(cfg, maxCase, tests).Some? && SkipList(cfg, maxCase, skip).Some?
  }

  /** The exit status `ret | global_return` for values that are 0 or -1. */
  function ExitStatus(ret: int, globalReturn: int): (r: int)
    requires ret == 0 || ret == -1
    requires globalReturn == 0 || globalReturn == -1
    ensures r == 0 <==> ret == 0 && globalReturn == 0
    ensures r == 0 || r == -1
  {
    if ret == 0 && globalReturn == 0 then 0 else -1
  }

  /** A C `int` that is 0 or -1, as its 32 bits. */
  function Bits(x: int): bv32
    requires x == 0 || x == -1
  {
    if x == 0 then 0 else 0xFFFF_FFFF
  }

  /** `ExitStatus` is the bitwise or `ret | global_return` of `main`. */
  lemma ExitStatusIsOr(ret: int, globalReturn: int)
    requires ret == 0 || ret == -1
    requires globalReturn == 0 || globalReturn == -1
    ensures Bits(ExitStatus(ret, globalReturn)) == Bits(ret) | Bits(globalReturn)
  {
    assert 0 as bv32 | 0 == 0;
    assert 0 as bv32 | 0xFFFF_FFFF == 0xFFFF_FFFF;
    assert 0xFFFF_FFFF as bv32 | 0 == 0xFFFF_FFFF;
    assert 0xFFFF_FFFF as bv32 | 0xFFFF_FFFF == 0xFFFF_FFFF;
  }

  /** What the perform step of `main` leaves: the globals, the test and
      skip lists, and the exit status `ret | global_return`. */
  datatype Outcome = Outcome(g: Globals, tests: seq<int>, skip: seq<int>, status: int)

  /** The perform step of `main`: `--reports` only updates the reports;
      otherwise `run_cases` runs and its return value is dropped. */
  function Perform(env: Env, cfg: Config, g: Globals, reports: bool, tests: seq<int>, skip: seq<int>): (o: Outcome)
    requires g.globalReturn == 0 || g.globalReturn == -1
    ensures o.status == 0 || o.status == -1
    ensures o.g.globalReturn == 0 || o.g.globalReturn == -1
    ensures g.globalReturn == -1 ==> o.status == -1
  {
    if reports then
      var (g1, ret) := UpdateReports(env, cfg, g);
      UpdateReportsResult(env, cfg, g);
      Outcome(g1, tests, skip, ExitStatus(ret, g1.globalReturn))
    else
      var r := RunCases(env, cfg, g, tests, skip);
      RunCasesVerdict(env, cfg, g, tests, skip);
      Outcome(r.g, r.tests, r.skip, ExitStatus(0, r.g.globalReturn))
  }

  // ---------------------------------------------------------------------
  // Properties of one connection.

  /** In TEST state every message is echoed back once, unchanged and in
      order; in every other state nothing is sent. */
  lemma {:induction false} DeliverEchoes(env: Env, cfg: Config, g: Globals, msgs: seq<Frame>)
    ensures Deliver(env, cfg, g, msgs).sent == g.sent + (if g.state == Test then msgs else [])
    decreases |msgs|
  {
    if msgs != [] {
      var g1 := Dispatch(env, cfg, g, msgs[0]);
      assert Deliver(env, cfg, g, msgs) == Deliver(env, cfg, g1, msgs[1..]);
      DeliverEchoes(env, cfg, g1, msgs[1..]);
      if g.state == Test {
        assert g1.sent == g.sent + [msgs[0]];
        assert g.sent + [msgs[0]] + msgs[1..] == g.sent + msgs by {
          assert msgs == [msgs[0]] + msgs[1..];
        }
      }
    }
  }

  /** Messages never change the phase, the current case or the connection log. */
  lemma {:induction false} DeliverKeeps(env: Env, cfg: Config, g: Globals, msgs: seq<Frame>)
    ensures var r := Deliver(env, cfg, g, msgs);
      r.state == g.state && r.currentCase == g.currentCase && r.requests == g.requests
    decreases |msgs|
  {
    if msgs != [] {
      DeliverKeeps(env, cfg, Dispatch(env, cfg, g, msgs[0]), msgs[1..]);
    }
  }

  /** Outside TEST-STATUS the verdict is untouched; in it, `global_return`
      ends at -1 exactly when it was -1 or some message decoded to a failing
      behavior. It is never set back to 0. */
  lemma {:induction false} DeliverVerdict(env: Env, cfg: Config, g: Globals, msgs: seq<Frame>)
    ensures var r := Deliver(env, cfg, g, msgs);
      && (r.globalReturn == g.globalReturn || r.globalReturn == -1)
      && (g.state != TestStatus ==> r.globalReturn == g.globalReturn)
      && (g.state == TestStatus ==>
            (r.globalReturn == -1 <==>
               g.globalReturn == -1 || exists i :: 0 <= i < |msgs| && Fails(env.statusJson(msgs[i].payload))))
    decreases |msgs|
  {
    if msgs != [] {
      var g1 := Dispatch(env, cfg, g, msgs[0]);
      DeliverVerdict(env, cfg, g1, msgs[1..]);
      if g.state == TestStatus {
        var r := Deliver(env, cfg, g, msgs);
        if r.globalReturn == -1 && g.globalReturn != -1 {
          if Fails(env.statusJson(msgs[0].payload)) {
          } else {
            var i :| 0 <= i < |msgs[1..]| && Fails(env.statusJson(msgs[1..][i].payload));
            assert msgs[i + 1] == msgs[1..][i];
          }
        }
        if exists i :: 0 <= i < |msgs| && Fails(env.statusJson(msgs[i].payload)) {
          var i :| 0 <= i < |msgs| && Fails(env.statusJson(msgs[i].payload));
          if i > 0 {
            assert msgs[1..][i - 1] == msgs[i];
          }
        }
      }
    }
  }

  /** In COUNT state the count is that of the last message, or unchanged
      when none came. */
  lemma {:induction false} DeliverCount(env: Env, cfg: Config, g: Globals, msgs: seq<Frame>)
    requires g.state == Count
    ensures Deliver(env, cfg, g, msgs).serverCaseCount ==
      if msgs == [] then g.serverCaseCount else env.atoi(msgs[|msgs| - 1].payload)
    decreases |msgs|
  {
    if msgs != [] {
      DeliverCount(env, cfg, Dispatch(env, cfg, g, msgs[0]), msgs[1..]);
    }
  }

  /** The connection log grows by exactly the URL opened. */
  lemma ConnectLogs(env: Env, cfg: Config, g: Globals, url: Request)
    ensures var (r, ok) := Connect(env, cfg, g, url);
      && r.requests == g.requests + [url]
      && (ok <==> env.server(|g.requests|, url).Served?)
      && r.state == g.state && r.currentCase == g.currentCase
  {
    if env.server(|g.requests|, url).Served? {
      DeliverKeeps(env, cfg, g.(requests := g.requests + [url]), env.server(|g.requests|, url).messages);
    }
  }

  /** `global_return` after a connection is the old value or -1. */
  lemma ConnectVerdict(env: Env, cfg: Config, g: Globals, url: Request)
    ensures var r := Connect(env, cfg, g, url).0;
      (r.globalReturn == g.globalReturn || r.globalReturn == -1)
      && (g.state != TestStatus ==> r.globalReturn == g.globalReturn)
  {
    if env.server(|g.requests|, url).Served? {
      DeliverVerdict(env, cfg, g.(requests := g.requests + [url]), env.server(|g.requests|, url).messages);
    }
  }

  // ---------------------------------------------------------------------
  // Properties of one phase connection.

  /** `get_case_count` returns -1 when the connection was refused, and
      otherwise whatever `atoi` made of the last message (or the previous
      count when none came); it opens the count URL and nothing else. */
  lemma GetCaseCountResult(env: Env, cfg: Config, g: Globals)
    ensures var r := GetCaseCount(env, cfg, g).0;
      r.requests == g.requests + [CaseCountUrl] && r.globalReturn == g.globalReturn && r.sent == g.sent
    ensures var c := GetCaseCount(env, cfg, g).1;
      var conn := env.server(|g.requests|, CaseCountUrl);
      && (conn.Refused? ==> c == -1)
      && (conn.Served? ==> c == if conn.messages == [] then g.serverCaseCount
                                 else env.atoi(conn.messages[|conn.messages| - 1].payload))
  {
    var g0 := g.(state := Count);
    ConnectLogs(env, cfg, g0, CaseCountUrl);
    ConnectVerdict(env, cfg, g0, CaseCountUrl);
    var conn := env.server(|g.requests|, CaseCountUrl);
    if conn.Served? {
      var g1 := g0.(requests := g0.requests + [CaseCountUrl]);
      DeliverCount(env, cfg, g1, conn.messages);
      DeliverEchoes(env, cfg, g1, conn.messages);
    }
  }

  /** `update_reports` returns 0 exactly when the connection was made; it
      opens the report URL, sends nothing and leaves the verdict alone. */
  lemma UpdateReportsResult(env: Env, cfg: Config, g: Globals)
    ensures var (r, rc) := UpdateReports(env, cfg, g);
      && r.requests == g.requests + [UpdateReportsUrl]
      && (rc == 0 <==> env.server(|g.requests|, UpdateReportsUrl).Served?)
      && (rc == 0 || rc == -1)
      && r.globalReturn == g.globalReturn && r.sent == g.sent
  {
    var g0 := g.(state := Report);
    ConnectLogs(env, cfg, g0, UpdateReportsUrl);
    ConnectVerdict(env, cfg, g0, UpdateReportsUrl);
    var conn := env.server(|g.requests|, UpdateReportsUrl);
    if conn.Served? {
      DeliverEchoes(env, cfg, g0.(requests := g0.requests + [UpdateReportsUrl]), conn.messages);
    }
  }

  // ---------------------------------------------------------------------
  // Properties of one case and of the case loop.

  /** The three phase URLs of case n, in the order `run_case` opens them. */
  function PhaseUrls(n: int): seq<Request>
  {
    [CaseInfoUrl(n), RunCaseUrl(n), CaseStatusUrl(n)]
  }

  /** How many of `urls` are opened when the first is the k-th connection of
      the run: up to and including the first refused one. */
  function Opened(server: (nat, Request) -> Connection, k: nat, urls: seq<Request>): (c: nat)
    ensures c <= |urls|
    ensures urls != [] ==> c >= 1
    decreases |urls|
  {
    if urls == [] then 0
    else if server(k, urls[0]).Refused? then 1
    else 1 + Opened(server, k + 1, urls[1..])
  }

  /** `run_case(n)` sets `current_case` to n and opens the phase URLs in
      order up to the first refused one; it succeeds exactly when all three
      connected. */
  lemma RunCasePhases(env: Env, cfg: Config, g: Globals, n: int)
    ensures var r := RunCase(env, cfg, g, n).0;
      && r.currentCase == n
      && r.requests == g.requests + PhaseUrls(n)[..Opened(env.server, |g.requests|, PhaseUrls(n))]
    ensures RunCase(env, cfg, g, n).1 <==>
      forall j :: 0 <= j < 3 ==> env.server(|g.requests| + j, PhaseUrls(n)[j]).Served?
  {
    var k := |g.requests|;
    var u := PhaseUrls(n);
    assert u[1..] == [RunCaseUrl(n), CaseStatusUrl(n)];
    assert u[1..][1..] == [CaseStatusUrl(n)];
    var g0 := g.(currentCase := n, state := TestInfo);
    ConnectLogs(env, cfg, g0, CaseInfoUrl(n));
    var (g1, ok1) := Connect(env, cfg, g0, CaseInfoUrl(n));
    if !ok1 {
      assert Opened(env.server, k, u) == 1;
      assert u[..1] == [CaseInfoUrl(n)];
    } else {
      ConnectLogs(env, cfg, g1.(state := Test), RunCaseUrl(n));
      var (g2, ok2) := Connect(env, cfg, g1.(state := Test), RunCaseUrl(n));
      if !ok2 {
        assert Opened(env.server, k, u) == 2;
        assert u[..2] == [CaseInfoUrl(n), RunCaseUrl(n)];
      } else {
        ConnectLogs(env, cfg, g2.(state := TestStatus), CaseStatusUrl(n));
        assert Opened(env.server, k, u) == 3;
        assert u[..3] == u;
        assert |g2.requests| == k + 2;
        var ok3 := Connect(env, cfg, g2.(state := TestStatus), CaseStatusUrl(n)).1;
        assert ok3 <==> env.server(k + 2, u[2]).Served?;
      }
    }
  }

  /** The last connection opened was refused. */
  predicate EndsRefused(server: (nat, Request) -> Connection, requests: seq<Request>)
  {
    requests != [] && server(|requests| - 1, requests[|requests| - 1]).Refused?
  }

  /** A failed case failed on the last connection it opened. */
  lemma RunCaseFailure(env: Env, cfg: Config, g: Globals, n: int)
    ensures var (r, ok) := RunCase(env, cfg, g, n);
      !ok ==> EndsRefused(env.server, r.requests)
  {
    var g0 := g.(currentCase := n, state := TestInfo);
    ConnectLogs(env, cfg, g0, CaseInfoUrl(n));
    var (g1, ok1) := Connect(env, cfg, g0, CaseInfoUrl(n));
    if ok1 {
      ConnectLogs(env, cfg, g1.(state := Test), RunCaseUrl(n));
      var (g2, ok2) := Connect(env, cfg, g1.(state := Test), RunCaseUrl(n));
      if ok2 {
        ConnectLogs(env, cfg, g2.(state := TestStatus), CaseStatusUrl(n));
      }
    }
  }

  /** A case leaves `global_return` as it was or at -1, and it is -1
      exactly when it was before or the status phase was reached and one
      of its messages decoded to a failing behavior. */
  lemma RunCaseVerdict(env: Env, cfg: Config, g: Globals, n: int)
    ensures var r := RunCase(env, cfg, g, n).0;
      r.globalReturn == g.globalReturn || r.globalReturn == -1
    ensures var r := RunCase(env, cfg, g, n).0;
      var k := |g.requests|;
      var status := env.server(k + 2, CaseStatusUrl(n));
      var reached := env.server(k, CaseInfoUrl(n)).Served? && env.server(k + 1, RunCaseUrl(n)).Served?;
      r.globalReturn == -1 <==>
        g.globalReturn == -1 ||
        (reached && status.Served? &&
         exists i :: 0 <= i < |status.messages| && Fails(env.statusJson(status.messages[i].payload)))
  {
    var k := |g.requests|;
    var g0 := g.(currentCase := n, state := TestInfo);
    ConnectVerdict(env, cfg, g0, CaseInfoUrl(n));
    ConnectLogs(env, cfg, g0, CaseInfoUrl(n));
    var (g1, ok1) := Connect(env, cfg, g0, CaseInfoUrl(n));
    if ok1 {
      ConnectVerdict(env, cfg, g1.(state := Test), RunCaseUrl(n));
      ConnectLogs(env, cfg, g1.(state := Test), RunCaseUrl(n));
      var (g2, ok2) := Connect(env, cfg, g1.(state := Test), RunCaseUrl(n));
      if ok2 {
        var g3 := g2.(state := TestStatus);
        assert |g3.requests| == k + 2;
        ConnectVerdict(env, cfg, g3, CaseStatusUrl(n));
        var status := env.server(k + 2, CaseStatusUrl(n));
        if status.Served? {
          DeliverVerdict(env, cfg, g3.(requests := g3.requests + [CaseStatusUrl(n)]), status.messages);
        }
      }
    }
  }

  /** A connection echoes what the server sends exactly when it is made
      in TEST state. */
  lemma ConnectEchoes(env: Env, cfg: Config, g: Globals, url: Request)
    ensures var c := env.server(|g.requests|, url);
      Connect(env, cfg, g, url).0.sent == g.sent + (if g.state == Test && c.Served? then c.messages else [])
  {
    var c := env.server(|g.requests|, url);
    if c.Served? {
      DeliverEchoes(env, cfg, g.(requests := g.requests + [url]), c.messages);
    }
  }

  /** Only the messages of the run-case connection are echoed. */
  lemma RunCaseEchoes(env: Env, cfg: Config, g: Globals, n: int)
    ensures var r := RunCase(env, cfg, g, n).0;
      var k := |g.requests|;
      var played := env.server(k, CaseInfoUrl(n)).Served? && env.server(k + 1, RunCaseUrl(n)).Served?;
      r.sent == g.sent + if played then env.server(k + 1, RunCaseUrl(n)).messages else []
  {
    var k := |g.requests|;
    var g0 := g.(currentCase := n, state := TestInfo);
    ConnectEchoes(env, cfg, g0, CaseInfoUrl(n));
    ConnectLogs(env, cfg, g0, CaseInfoUrl(n));
    var (g1, ok1) := Connect(env, cfg, g0, CaseInfoUrl(n));
    if !ok1 {
      assert RunCase(env, cfg, g, n).0 == g1;
    } else {
      var h1 := g1.(state := Test);
      assert |h1.requests| == k + 1;
      ConnectEchoes(env, cfg, h1, RunCaseUrl(n));
      ConnectLogs(env, cfg, h1, RunCaseUrl(n));
      var (g2, ok2) := Connect(env, cfg, h1, RunCaseUrl(n));
      if !ok2 {
        assert RunCase(env, cfg, g, n).0 == g2;
      } else {
        var h2 := g2.(state := TestStatus);
        ConnectEchoes(env, cfg, h2, CaseStatusUrl(n));
        assert RunCase(env, cfg, g, n).0 == Connect(env, cfg, h2, CaseStatusUrl(n)).0;
        assert g2.sent == g.sent + env.server(k + 1, RunCaseUrl(n)).messages;
      }
    }
  }

  /** The listed cases that are not skipped, in list order. */
  function Unskipped(cases: seq<int>, skip: seq<int>): seq<int>
    decreases |cases|
  {
    if cases == [] then []
    else (if cases[0] in skip then [] else [cases[0]]) + Unskipped(cases[1..], skip)
  }

  /** The cases whose first phase was opened, in order. */
  function CasesStarted(requests: seq<Request>): seq<int>
    decreases |requests|
  {
    if requests == [] then []
    else (if requests[0].CaseInfoUrl? then [requests[0].caseNo] else []) + CasesStarted(requests[1..])
  }

  lemma {:induction false} CasesStartedAppend(a: seq<Request>, b: seq<Request>)
    ensures CasesStarted(a + b) == CasesStarted(a) + CasesStarted(b)
    decreases |a|
  {
    if a == [] {
      assert a + b == b;
    } else {
      assert (a + b)[0] == a[0];
      assert (a + b)[1..] == a[1..] + b;
      CasesStartedAppend(a[1..], b);
    }
  }

  /** The log `b` continues the log `a`. */
  predicate Extends(a: seq<Request>, b: seq<Request>)
  {
    |a| <= |b| && b[..|a|] == a
  }

  /** What a continued log adds is the sum of what each step added. */
  lemma ExtendsJoin(a: seq<Request>, b: seq<Request>, c: seq<Request>)
    requires Extends(a, b) && Extends(b, c)
    ensures Extends(a, c)
    ensures c[|a|..] == b[|a|..] + c[|b|..]
  {
    assert c[..|a|] == c[..|b|][..|a|];
  }

  /** One case opens its own phase URLs only: it starts exactly case n and
      does not open the report URL. */
  lemma RunCaseLog(env: Env, cfg: Config, g: Globals, n: int)
    ensures Extends(g.requests, RunCase(env, cfg, g, n).0.requests)
    ensures var added := RunCase(env, cfg, g, n).0.requests[|g.requests|..];
      CasesStarted(added) == [n] && UpdateReportsUrl !in added
  {
    RunCasePhases(env, cfg, g, n);
    var r := RunCase(env, cfg, g, n).0;
    var c := Opened(env.server, |g.requests|, PhaseUrls(n));
    var tail := PhaseUrls(n)[..c];
    assert r.requests == g.requests + tail;
    assert r.requests[|g.requests|..] == tail;
    var a := [CaseInfoUrl(n)];
    assert CasesStarted(a) == [n] by {
      assert a[1..] == [];
    }
    if c == 1 {
      assert tail == a;
    } else if c == 2 {
      var b := [RunCaseUrl(n)];
      assert tail == a + b;
      assert b[1..] == [];
      CasesStartedAppend(a, b);
    } else {
      var b := [RunCaseUrl(n), CaseStatusUrl(n)];
      assert tail == a + b;
      assert b[1..][1..] == [];
      CasesStartedAppend(a, b);
    }
  }

  /** The loop only ever adds to the log, and never opens the report URL. */
  lemma {:induction false} RunListLog(env: Env, cfg: Config, g: Globals, cases: seq<int>, skip: seq<int>)
    ensures Extends(g.requests, RunList(env, cfg, g, cases, skip).0.requests)
    ensures UpdateReportsUrl !in RunList(env, cfg, g, cases, skip).0.requests[|g.requests|..]
    decreases |cases|
  {
    if cases == [] {
      assert g.requests[|g.requests|..] == [];
    } else if cases[0] in skip {
      RunListLog(env, cfg, g, cases[1..], skip);
    } else {
      var (g1, ok1) := RunCase(env, cfg, g, cases[0]);
      RunCaseLog(env, cfg, g, cases[0]);
      if ok1 {
        var r := RunList(env, cfg, g1, cases[1..], skip).0;
        assert RunList(env, cfg, g, cases, skip).0 == r;
        RunListLog(env, cfg, g1, cases[1..], skip);
        ExtendsJoin(g.requests, g1.requests, r.requests);
      }
    }
  }

  /** `run_cases` runs the unskipped cases in list order: the cases started
      are a prefix of them, and all of them when the loop succeeds. */
  lemma {:induction false} RunListOrder(env: Env, cfg: Config, g: Globals, cases: seq<int>, skip: seq<int>)
    ensures Extends(g.requests, RunList(env, cfg, g, cases, skip).0.requests)
    ensures var (r, ok) := RunList(env, cfg, g, cases, skip);
      var started := CasesStarted(r.requests[|g.requests|..]);
      && started <= Unskipped(cases, skip)
      && (ok ==> started == Unskipped(cases, skip))
    decreases |cases|
  {
    RunListLog(env, cfg, g, cases, skip);
    if cases == [] {
      assert g.requests[|g.requests|..] == [];
    } else if cases[0] in skip {
      RunListOrder(env, cfg, g, cases[1..], skip);
      assert Unskipped(cases, skip) == [] + Unskipped(cases[1..], skip);
    } else {
      var n := cases[0];
      var (g1, ok1) := RunCase(env, cfg, g, n);
      RunCaseLog(env, cfg, g, n);
      var t1 := g1.requests[|g.requests|..];
      assert Unskipped(cases, skip) == [n] + Unskipped(cases[1..], skip);
      if !ok1 {
        assert RunList(env, cfg, g, cases, skip) == (g1, false);
      } else {
        var (r, ok) := RunList(env, cfg, g1, cases[1..], skip);
        assert RunList(env, cfg, g, cases, skip) == (r, ok);
        RunListOrder(env, cfg, g1, cases[1..], skip);
        ExtendsJoin(g.requests, g1.requests, r.requests);
        CasesStartedAppend(t1, r.requests[|g1.requests|..]);
      }
    }
  }

  /** A loop that fails stops at the refused connection: nothing is opened
      after it. */
  lemma {:induction false} RunListStopsAtFailure(env: Env, cfg: Config, g: Globals, cases: seq<int>, skip: seq<int>)
    ensures var (r, ok) := RunList(env, cfg, g, cases, skip);
      !ok ==> EndsRefused(env.server, r.requests)
    decreases |cases|
  {
    if cases != [] {
      if cases[0] in skip {
        RunListStopsAtFailure(env, cfg, g, cases[1..], skip);
      } else {
        RunCaseFailure(env, cfg, g, cases[0]);
        var g1 := RunCase(env, cfg, g, cases[0]).0;
        RunListStopsAtFailure(env, cfg, g1, cases[1..], skip);
      }
    }
  }

  /** The loop never sets `global_return` back to 0. */
  lemma {:induction false} RunListVerdict(env: Env, cfg: Config, g: Globals, cases: seq<int>, skip: seq<int>)
    ensures var r := RunList(env, cfg, g, cases, skip).0;
      r.globalReturn == g.globalReturn || r.globalReturn == -1
    decreases |cases|
  {
    if cases != [] {
      if cases[0] in skip {
        RunListVerdict(env, cfg, g, cases[1..], skip);
      } else {
        RunCaseVerdict(env, cfg, g, cases[0]);
        var g1 := RunCase(env, cfg, g, cases[0]).0;
        RunListVerdict(env, cfg, g1, cases[1..], skip);
      }
    }
  }

  /** The lists `run_cases` settles on: with `--all` exactly the cases
      1 .. count, in order; with a range, the sorted merge of the range and
      the listed cases, or nothing when `combine_range_and_values` rejects
      the range; otherwise the list as given. */
  lemma TestListSettled(cfg: Config, maxCase: nat, tests: seq<int>)
    ensures var t := TestList(cfg, maxCase, tests);
      cfg.all ==> t.Some? && Sorted(t.value) && forall x :: x in t.value <==> 1 <= x <= maxCase
    ensures var t := TestList(cfg, maxCase, tests);
      var stop := Stop(maxCase, cfg.range, cfg.rangeCount);
      !cfg.all && cfg.rangeCount != 0 ==>
        && (t.None? <==> cfg.range[0] <= 0 || stop < cfg.range[0])
        && (t.Some? ==> Sorted(t.value) && forall x :: x in t.value <==> cfg.range[0] <= x <= stop || x in tests)
    ensures !cfg.all && cfg.rangeCount == 0 ==> TestList(cfg, maxCase, tests) == Some(tests)
  {
    if cfg.all {
      IotaIsRange(maxCase);
      forall x ensures x in Iota(maxCase) <==> 1 <= x <= maxCase {
        assert x in Iota(maxCase) <==> x in multiset(Iota(maxCase));
      }
    } else if cfg.rangeCount != 0 {
      var t := Combine(maxCase, cfg.range, cfg.rangeCount, tests);
      if t.Some? {
        forall x ensures x in t.value <==> cfg.range[0] <= x <= Stop(maxCase, cfg.range, cfg.rangeCount) || x in tests {
          assert x in t.value <==> x in multiset(t.value);
          assert x in tests <==> x in multiset(tests);
        }
      }
    }
  }

  /** The skip list `run_cases` settles on: with a skip range, the sorted
      merge of the range and the listed skips, every listed skip kept;
      otherwise the list as given. */
  lemma SkipListSettled(cfg: Config, maxCase: nat, skip: seq<int>)
    ensures var sk := SkipList(cfg, maxCase, skip);
      var stop := Stop(maxCase, cfg.skipRange, cfg.skipRangeCount);
      cfg.skipRangeCount != 0 && sk.Some? ==>
        Sorted(sk.value) && forall x :: x in sk.value <==> cfg.skipRange[0] <= x <= stop || x in skip
    ensures cfg.skipRangeCount == 0 ==> SkipList(cfg, maxCase, skip) == Some(skip)
  {
    if cfg.skipRangeCount != 0 {
      var sk := Combine(maxCase, cfg.skipRange, cfg.skipRangeCount, skip);
      if sk.Some? {
        forall x ensures x in sk.value <==> cfg.skipRange[0] <= x <= Stop(maxCase, cfg.skipRange, cfg.skipRangeCount) || x in skip {
          assert x in sk.value <==> x in multiset(sk.value);
          assert x in skip <==> x in multiset(skip);
        }
      }
    }
  }

  /** The four ways `run_cases` ends: no count, a rejected range, a
      rejected skip range, or the loop. */
  lemma RunCasesSteps(env: Env, cfg: Config, g: Globals, tests: seq<int>, skip: seq<int>, g1: Globals, maxCase: int)
    requires (g1, maxCase) == GetCaseCount(env, cfg, g)
    ensures maxCase < 0 ==> RunCases(env, cfg, g, tests, skip) == RunResult(g1, -1, tests, skip)
    ensures maxCase >= 0 && TestList(cfg, maxCase, tests).None? ==>
      RunCases(env, cfg, g, tests, skip) == RunResult(g1, -1, tests, skip)
    ensures maxCase >= 0 && TestList(cfg, maxCase, tests).Some? && SkipList(cfg, maxCase, skip).None? ==>
      RunCases(env, cfg, g, tests, skip) == RunResult(g1, -1, TestList(cfg, maxCase, tests).value, skip)
    ensures Ran(cfg, maxCase, tests, skip) ==>
      RunCases(env, cfg, g, tests, skip) ==
        RunAndReport(env, cfg, g1, TestList(cfg, maxCase, tests).value, SkipList(cfg, maxCase, skip).value)
  {
  }

  /** `run_cases` returns 0 exactly when the loop ran every unskipped case
      and the report update was opened last; a -1 never opens the report
      update. */
  lemma RunCasesReports(env: Env, cfg: Config, g: Globals, tests: seq<int>, skip: seq<int>)
    ensures Extends(g.requests, RunCases(env, cfg, g, tests, skip).g.requests)
    ensures var r := RunCases(env, cfg, g, tests, skip);
      var added := r.g.requests[|g.requests|..];
      && added != [] && added[0] == CaseCountUrl
      && (r.rc == 0 ==> added[|added| - 1] == UpdateReportsUrl
                         && CasesStarted(added) == Unskipped(r.tests, r.skip))
      && (r.rc == -1 ==> UpdateReportsUrl !in added)
  {
    var (g1, maxCase) := GetCaseCount(env, cfg, g);
    GetCaseCountResult(env, cfg, g);
    RunCasesSteps(env, cfg, g, tests, skip, g1, maxCase);
    var c0 := [CaseCountUrl];
    assert g1.requests[|g.requests|..] == c0;
    if Ran(cfg, maxCase, tests, skip) {
      var cases := TestList(cfg, maxCase, tests).value;
      var skips := SkipList(cfg, maxCase, skip).value;
      var r := RunAndReport(env, cfg, g1, cases, skips);
      RunAndReportLog(env, cfg, g1, cases, skips);
      ExtendsJoin(g.requests, g1.requests, r.g.requests);
      AfterCount(r.g.requests[|g1.requests|..]);
    }
  }

  /** The count request starts no case. */
  lemma AfterCount(t: seq<Request>)
    ensures CasesStarted([CaseCountUrl] + t) == CasesStarted(t)
  {
    var c0 := [CaseCountUrl];
    assert (c0 + t)[1..] == t;
  }

  /** The case loop and the report update: 0 exactly when every unskipped
      case was started and the report update was opened last. */
  lemma RunAndReportLog(env: Env, cfg: Config, g: Globals, cases: seq<int>, skip: seq<int>)
    ensures Extends(g.requests, RunAndReport(env, cfg, g, cases, skip).g.requests)
    ensures var r := RunAndReport(env, cfg, g, cases, skip);
      var added := r.g.requests[|g.requests|..];
      && r.tests == cases && r.skip == skip
      && (r.rc == 0 || r.rc == -1)
      && (r.rc == 0 ==> added != [] && added[|added| - 1] == UpdateReportsUrl
                         && CasesStarted(added) == Unskipped(cases, skip))
      && (r.rc == -1 ==> UpdateReportsUrl !in added)
  {
    var (g2, ok) := RunList(env, cfg, g, cases, skip);
    RunListLog(env, cfg, g, cases, skip);
    RunListOrder(env, cfg, g, cases, skip);
    if ok {
      UpdateReportsResult(env, cfg, g2);
      var r := UpdateReports(env, cfg, g2).0;
      assert Extends(g2.requests, r.requests);
      ExtendsJoin(g.requests, g2.requests, r.requests);
      var t2 := g2.requests[|g.requests|..];
      assert r.requests[|g2.requests|..] == [UpdateReportsUrl];
      CasesStartedAppend(t2, [UpdateReportsUrl]);
      assert CasesStarted([UpdateReportsUrl]) == [] by {
        assert [UpdateReportsUrl][1..] == [];
      }
    }
  }

  /** `run_cases` never sets `global_return` back to 0. */
  lemma RunCasesVerdict(env: Env, cfg: Config, g: Globals, tests: seq<int>, skip: seq<int>)
    ensures var r := RunCases(env, cfg, g, tests, skip);
      r.g.globalReturn == g.globalReturn || r.g.globalReturn == -1
  {
    var (g1, maxCase) := GetCaseCount(env, cfg, g);
    GetCaseCountResult(env, cfg, g);
    if Ran(cfg, maxCase, tests, skip) {
      var cases := TestList(cfg, maxCase, tests).value;
      var skips := SkipList(cfg, maxCase, skip).value;
      assert RunCases(env, cfg, g, tests, skip) == RunAndReport(env, cfg, g1, cases, skips);
      var (g2, ok) := RunList(env, cfg, g1, cases, skips);
      RunListVerdict(env, cfg, g1, cases, skips);
      if ok {
        UpdateReportsResult(env, cfg, g2);
      }
    }
  }

  /** The exit status is 0 exactly when no case failed and, with
      `--reports`, the report update connected; a refused connection during
      `run_cases` does not by itself make it nonzero. */
  lemma PerformStatus(env: Env, cfg: Config, g: Globals, reports: bool, tests: seq<int>, skip: seq<int>)
    requires g.globalReturn == 0 || g.globalReturn == -1
    ensures var o := Perform(env, cfg, g, reports, tests, skip);
      reports ==>
        (o.status == 0 <==> g.globalReturn == 0 && env.server(|g.requests|, UpdateReportsUrl).Served?)
    ensures var o := Perform(env, cfg, g, reports, tests, skip);
      !reports ==> (o.status == 0 <==> o.g.globalReturn == 0)
    ensures var r := RunCases(env, cfg, g, tests, skip);
      !reports && r.rc == -1 && r.g.globalReturn == 0 ==> Perform(env, cfg, g, reports, tests, skip).status == 0
  {
    if reports {
      UpdateReportsResult(env, cfg, g);
    }
  }
}
