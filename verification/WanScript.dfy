/** The controller's programs as scripts: connecting, experiments, latency measurement, quitting. */
module WanScript {
  import opened Collections
  import opened WanWire
  import opened WanSession
  import opened WanRun
  import opened WanTail

  function Tag(i: nat, ops: seq<Op>): Script {
    seq(|ops|, k requires 0 <= k < |ops| => (i, ops[k]))
  }

  /** One loop over the client sockets. */
  function ForEach(n: nat, f: nat -> seq<Op>): Script {
    if n == 0 then [] else ForEach(n - 1, f) + Tag(n - 1, f(n - 1))
  }

  lemma {:induction false} RestAppend(a: Script, b: Script, j: nat)
    ensures Rest(a + b, j) == Rest(a, j) + Rest(b, j)
  {
    if a == [] {
      assert a + b == b;
    } else {
      assert (a + b)[1..] == a[1..] + b;
      RestAppend(a[1..], b, j);
    }
  }

  lemma {:induction false} RestTag(i: nat, ops: seq<Op>, j: nat)
    ensures Rest(Tag(i, ops), j) == if i == j then ops else []
  {
    if ops != [] {
      assert Tag(i, ops)[1..] == Tag(i, ops[1..]);
      RestTag(i, ops[1..], j);
    }
  }

  lemma {:induction false} RestForEach(n: nat, f: nat -> seq<Op>, j: nat)
    ensures Rest(ForEach(n, f), j) == if j < n then f(j) else []
    ensures forall k :: 0 <= k < |ForEach(n, f)| ==> ForEach(n, f)[k].0 < n
  {
    if n > 0 {
      var a, b := ForEach(n - 1, f), Tag(n - 1, f(n - 1));
      assert ForEach(n, f) == a + b;
      RestForEach(n - 1, f, j);
      RestTag(n - 1, f(n - 1), j);
      RestAppend(a, b, j);
    }
  }

  lemma {:induction false} ForEachHead(n: nat, f: nat -> seq<Op>)
    requires n > 0 && f(0) != []
    ensures ForEach(n, f) != [] && ForEach(n, f)[0] == (0, f(0)[0])
  {
    if n > 1 {
      ForEachHead(n - 1, f);
    } else {
      assert ForEach(1, f) == Tag(0, f(0));
    }
  }

  lemma {:induction false} ForEachSame(n: nat, f: nat -> seq<Op>, g: nat -> seq<Op>)
    requires forall i: nat :: i < n ==> f(i) == g(i)
    ensures ForEach(n, f) == ForEach(n, g)
  {
    if n > 0 {
      ForEachSame(n - 1, f, g);
    }
  }

  // ----- commands sent to every server and awaited from every server

  type Request = (Cmd, Bytes)

  function SendOps(c: Request): seq<Op> {
    if HasPayload(c.0) then [Send(Command(c.0)), Send(Data(c.1))] else [Send(Command(c.0))]
  }

  function Exchange(c: Request): seq<Op> {
    SendOps(c) + [Await]
  }

  function Exchanges(cs: seq<Request>): seq<Op> {
    if cs == [] then [] else Exchange(cs[0]) + Exchanges(cs[1..])
  }

  predicate RequestOk(c: Request) {
    && c.0 != Quit && c.0 != MeasureLatency
    && (if HasPayload(c.0) then PayloadOk(c.0, c.1) else c.1 == [])
  }

  predicate RequestsOk(cs: seq<Request>) {
    forall k :: 0 <= k < |cs| ==> RequestOk(cs[k])
  }

  function Broadcast(n: nat, c: Request): Script {
    ForEach(n, (i: nat) => SendOps(c)) + ForEach(n, (i: nat) => [Await])
  }

  function BroadcastAll(n: nat, cs: seq<Request>): Script {
    if cs == [] then [] else Broadcast(n, cs[0]) + BroadcastAll(n, cs[1..])
  }

  lemma RestBroadcast(n: nat, c: Request, j: nat)
    ensures Rest(Broadcast(n, c), j) == if j < n then Exchange(c) else []
  {
    RestForEach(n, (i: nat) => SendOps(c), j);
    RestForEach(n, (i: nat) => [Await], j);
    RestAppend(ForEach(n, (i: nat) => SendOps(c)), ForEach(n, (i: nat) => [Await]), j);
  }

  lemma {:induction false} RestBroadcastAll(n: nat, cs: seq<Request>, j: nat)
    ensures Rest(BroadcastAll(n, cs), j) == if j < n then Exchanges(cs) else []
  {
    if cs != [] {
      RestBroadcast(n, cs[0], j);
      RestBroadcastAll(n, cs[1..], j);
      RestAppend(Broadcast(n, cs[0]), BroadcastAll(n, cs[1..]), j);
    }
  }

  lemma BroadcastStarts(n: nat, c: Request)
    requires n > 0
    ensures BroadcastAll(n, [c]) != [] && BroadcastAll(n, [c])[0] == (0, SendOps(c)[0])
  {
    ForEachHead(n, (i: nat) => SendOps(c));
  }

  lemma {:induction false} BroadcastAllAppend(n: nat, a: seq<Request>, b: seq<Request>)
    ensures BroadcastAll(n, a + b) == BroadcastAll(n, a) + BroadcastAll(n, b)
  {
    if a == [] {
      assert a + b == b;
    } else {
      assert (a + b)[1..] == a[1..] + b;
      BroadcastAllAppend(n, a[1..], b);
    }
  }

  lemma {:induction false} ExchangesAppend(a: seq<Request>, b: seq<Request>)
    ensures Exchanges(a + b) == Exchanges(a) + Exchanges(b)
  {
    if a == [] {
      assert a + b == b;
    } else {
      assert (a + b)[1..] == a[1..] + b;
      ExchangesAppend(a[1..], b);
    }
  }

  /** A complete exchange in front neither makes nor breaks the dialogue. */
  lemma ExchangeDialogue(c: Request, v: seq<Op>)
    requires RequestOk(c)
    ensures MainDialogue(Exchange(c) + v) <==> MainDialogue(v)
  {
    var w := Exchange(c) + v;
    assert w[0] == Send(Command(c.0));
    if HasPayload(c.0) {
      assert w[1..][1..] == [Await] + v;
      assert w[1..][1..][1..] == v;
      assert AfterCommand(c.0, w[1..]) <==> ReplyDialogue(c.0, w[1..][1..]);
    } else {
      assert w[1..] == [Await] + v;
      assert w[1..][1..] == v;
      assert AfterCommand(c.0, w[1..]) <==> ReplyDialogue(c.0, w[1..]);
    }
  }

  lemma {:induction false} ExchangesDialogue(cs: seq<Request>, v: seq<Op>)
    requires RequestsOk(cs)
    ensures MainDialogue(Exchanges(cs) + v) <==> MainDialogue(v)
  {
    if cs == [] {
      assert Exchanges(cs) + v == v;
    } else {
      ExchangesDialogue(cs[1..], v);
      assert Exchanges(cs) + v == Exchange(cs[0]) + (Exchanges(cs[1..]) + v);
      ExchangeDialogue(cs[0], Exchanges(cs[1..]) + v);
    }
  }

  // ----- experiment

  /** '%02d' for the ids below 100. */
  function TwoDigits(i: nat): Bytes
    requires i < 100
  {
    [Digit(i / 10), Digit(i % 10)]
  }

  /** The two digits are those of the number: the server's int() gives it back. */
  lemma TwoDigitsRead(i: nat)
    requires i < 100
    ensures |TwoDigits(i)| == 2 && IsDecimal(TwoDigits(i)) && ReadInt(TwoDigits(i)) == i
  {
    var s := TwoDigits(i);
    assert s[..1][..0] == [] && s[..1] == [Digit(i / 10)];
    assert Number(s[..1]) == i / 10;
  }

  predicate ScenariosOk(scenarios: seq<nat>) {
    forall k :: 0 <= k < |scenarios| ==> scenarios[k] < 100
  }

  function Setting(scenario: nat): seq<Request>
    requires scenario < 100
  {
    [(TrafficControl, []), (ClearSockets, []), (SetScenario, TwoDigits(scenario)), (RunReceivers, [])]
  }

  /** The loop that starts the proxies, with the test proxy left out, and its wait. */
  function StartProxies(n: nat, testProxy: int): Script {
    ForEach(n, (i: nat) => if i == testProxy then [] else [Send(Command(RunProxies))]) + AwaitOthers(n, testProxy)
  }

  function AwaitOthers(n: nat, testProxy: int): Script {
    ForEach(n, (i: nat) => if i == testProxy then [] else [Await])
  }

  /** The loop that stops the proxies goes to every server, its wait leaves the test proxy out. */
  function EndProxies(n: nat, testProxy: int): Script {
    ForEach(n, (i: nat) => [Send(Command(StopProxies))]) + AwaitOthers(n, testProxy)
  }

  function ScenarioScript(n: nat, scenario: nat, testProxy: int): Script
    requires scenario < 100
  {
    BroadcastAll(n, Setting(scenario))
    + StartProxies(n, testProxy)
    + BroadcastAll(n, [(RunSenders, []), (StopSenders, [])])
    + EndProxies(n, testProxy)
    + BroadcastAll(n, [(StopReceivers, [])])
  }

  function ScenariosScript(n: nat, scenarios: seq<nat>, testProxy: int): Script
    requires ScenariosOk(scenarios)
  {
    if scenarios == [] then []
    else ScenarioScript(n, scenarios[0], testProxy) + ScenariosScript(n, scenarios[1..], testProxy)
  }

  function ExperimentScript(n: nat, name: Bytes, scenarios: seq<nat>, testProxy: int): Script
    requires ScenariosOk(scenarios)
  {
    BroadcastAll(n, [(MakeExp, name), (ClearResults, [])]) + ScenariosScript(n, scenarios, testProxy)
  }

  /** What an ordinary server is asked to do for one scenario, and for a whole experiment. */
  function ScenarioRequests(scenario: nat): seq<Request>
    requires scenario < 100
  {
    Setting(scenario) + [(RunProxies, [])] + [(RunSenders, []), (StopSenders, [])]
    + [(StopProxies, [])] + [(StopReceivers, [])]
  }

  function ScenariosRequests(scenarios: seq<nat>): seq<Request>
    requires ScenariosOk(scenarios)
  {
    if scenarios == [] then [] else ScenarioRequests(scenarios[0]) + ScenariosRequests(scenarios[1..])
  }

  function ExperimentRequests(name: Bytes, scenarios: seq<nat>): seq<Request>
    requires ScenariosOk(scenarios)
  {
    [(MakeExp, name), (ClearResults, [])] + ScenariosRequests(scenarios)
  }

  predicate IsServer(testProxy: int, n: nat) {
    0 <= testProxy < n
  }

  lemma ScenarioIsBroadcast(n: nat, scenario: nat, testProxy: int)
    requires scenario < 100 && !IsServer(testProxy, n)
    ensures ScenarioScript(n, scenario, testProxy) == BroadcastAll(n, ScenarioRequests(scenario))
  {
    ForEachSame(n, (i: nat) => if i == testProxy then [] else [Send(Command(RunProxies))],
                (i: nat) => SendOps((RunProxies, [])));
    ForEachSame(n, (i: nat) => if i == testProxy then [] else [Await], (i: nat) => [Await]);
    ForEachSame(n, (i: nat) => [Send(Command(StopProxies))], (i: nat) => SendOps((StopProxies, [])));
    assert StartProxies(n, testProxy) == Broadcast(n, (RunProxies, [])) == BroadcastAll(n, [(RunProxies, [])]);
    assert EndProxies(n, testProxy) == Broadcast(n, (StopProxies, [])) == BroadcastAll(n, [(StopProxies, [])]);
    var a, b, c := Setting(scenario), [(RunProxies, [])], [(RunSenders, []), (StopSenders, [])];
    var d, e := [(StopProxies, [])], [(StopReceivers, [])];
    BroadcastAllAppend(n, a, b);
    BroadcastAllAppend(n, a + b, c);
    BroadcastAllAppend(n, a + b + c, d);
    BroadcastAllAppend(n, a + b + c + d, e);
  }

  lemma {:induction false} ScenariosAreBroadcasts(n: nat, scenarios: seq<nat>, testProxy: int)
    requires ScenariosOk(scenarios) && !IsServer(testProxy, n)
    ensures ScenariosScript(n, scenarios, testProxy) == BroadcastAll(n, ScenariosRequests(scenarios))
  {
    if scenarios != [] {
      ScenarioIsBroadcast(n, scenarios[0], testProxy);
      ScenariosAreBroadcasts(n, scenarios[1..], testProxy);
      BroadcastAllAppend(n, ScenarioRequests(scenarios[0]), ScenariosRequests(scenarios[1..]));
    }
  }

  lemma ExperimentIsBroadcast(n: nat, name: Bytes, scenarios: seq<nat>, testProxy: int)
    requires ScenariosOk(scenarios) && !IsServer(testProxy, n)
    ensures ExperimentScript(n, name, scenarios, testProxy) == BroadcastAll(n, ExperimentRequests(name, scenarios))
  {
    ScenariosAreBroadcasts(n, scenarios, testProxy);
    BroadcastAllAppend(n, [(MakeExp, name), (ClearResults, [])], ScenariosRequests(scenarios));
  }

  // ----- a whole session

  datatype Task =
    | Experiment(name: Bytes, scenarios: seq<nat>)
    | Latency(ips: seq<seq<Bytes>>)

  /** The servers' outgoing addresses, the bandwidth, what the user runs, and the test_proxy setting. */
  datatype Plan = Plan(ips: seq<seq<Bytes>>, bandwidth: Bytes, tasks: seq<Task>, testProxy: int)

  predicate AllIpsOk(ips: seq<Bytes>) {
    forall k :: 0 <= k < |ips| ==> IpOk(ips[k])
  }

  predicate TaskOk(t: Task, n: nat) {
    match t
    case Experiment(name, scenarios) => PayloadOk(MakeExp, name) && ScenariosOk(scenarios)
    case Latency(ips) => |ips| == n && forall i :: 0 <= i < n ==> AllIpsOk(ips[i])
  }

  predicate PlanOk(p: Plan) {
    && |p.ips| <= 100
    && (forall i :: 0 <= i < |p.ips| ==> AllIpsOk(p.ips[i]))
    && PayloadOk(SetBandwidth, p.bandwidth)
    && (forall k :: 0 <= k < |p.tasks| ==> TaskOk(p.tasks[k], |p.ips|))
  }

  function AskIps(ips: seq<Bytes>): seq<Op> {
    if ips == [] then [] else [Send(Data(MORE)), Send(Data(ips[0])), Recv(2)] + AskIps(ips[1..])
  }

  function Results(k: nat): seq<Op> {
    if k == 0 then [] else [Recv(8), Send(Data(OK))] + Results(k - 1)
  }

  function ConnectOps(ips: seq<seq<Bytes>>): nat -> seq<Op>
    requires |ips| <= 100
  {
    (i: nat) => if i < |ips| then [Send(Data(TwoDigits(i)))] + AskIps(ips[i]) + [Send(Data(END))] else []
  }

  function AskOps(ips: seq<seq<Bytes>>): nat -> seq<Op> {
    (i: nat) => if i < |ips| then AskIps(ips[i]) + [Send(Data(END))] else []
  }

  function ResultOps(ips: seq<seq<Bytes>>): nat -> seq<Op> {
    (i: nat) => if i < |ips| then Results(|ips[i]|) else []
  }

  /** server_ips_settings */
  function ConnectScript(p: Plan): Script
    requires PlanOk(p)
  {
    ForEach(|p.ips|, ConnectOps(p.ips))
    + ForEach(|p.ips|, (i: nat) => [Recv(2), Send(Command(SetBandwidth)), Send(Data(p.bandwidth))])
    + ForEach(|p.ips|, (i: nat) => [Recv(2)])
  }

  /** The latency measurement of the user interaction mode. */
  function LatencyScript(ips: seq<seq<Bytes>>): Script {
    ForEach(|ips|, (i: nat) => [Send(Command(MeasureLatency))])
    + ForEach(|ips|, AskOps(ips))
    + ForEach(|ips|, ResultOps(ips))
    + ForEach(|ips|, (i: nat) => [Await])
  }

  function TaskScript(n: nat, t: Task, testProxy: int): Script
    requires TaskOk(t, n)
  {
    match t
    case Experiment(name, scenarios) => ExperimentScript(n, name, scenarios, testProxy)
    case Latency(ips) => LatencyScript(ips)
  }

  function TasksScript(n: nat, ts: seq<Task>, testProxy: int): Script
    requires forall k :: 0 <= k < |ts| ==> TaskOk(ts[k], n)
  {
    if ts == [] then [] else TaskScript(n, ts[0], testProxy) + TasksScript(n, ts[1..], testProxy)
  }

  function SessionScript(p: Plan): Script
    requires PlanOk(p)
  {
    ConnectScript(p) + (TasksScript(|p.ips|, p.tasks, p.testProxy) + QuitAll(|p.ips|))
  }

  // ----- when the session follows the protocol

  lemma {:induction false} AskIpsSetup(ips: seq<Bytes>, v: seq<Op>)
    requires AllIpsOk(ips)
    ensures SetupDialogue(AskIps(ips) + v) <==> SetupDialogue(v)
  {
    if ips == [] {
      assert AskIps(ips) + v == v;
    } else {
      var w := AskIps(ips) + v;
      assert w[0] == Send(Data(MORE));
      assert w[1..][0] == Send(Data(ips[0])) && w[1..][1] == Recv(2);
      assert w[1..][2..] == AskIps(ips[1..]) + v;
      AskIpsSetup(ips[1..], v);
    }
  }

  lemma {:induction false} AskIpsLatency(ips: seq<Bytes>, v: seq<Op>, n: nat)
    requires AllIpsOk(ips)
    ensures LatencyDialogue(AskIps(ips) + v, n) <==> LatencyDialogue(v, n + |ips|)
  {
    if ips == [] {
      assert AskIps(ips) + v == v;
    } else {
      var w := AskIps(ips) + v;
      assert w[0] == Send(Data(MORE));
      assert w[1..][0] == Send(Data(ips[0])) && w[1..][1] == Recv(2);
      assert w[1..][2..] == AskIps(ips[1..]) + v;
      AskIpsLatency(ips[1..], v, n + 1);
    }
  }

  lemma {:induction false} ResultsLatency(k: nat, v: seq<Op>)
    ensures ResultDialogue(Results(k) + v, k) <==> ResultDialogue(v, 0)
  {
    if k == 0 {
      assert Results(k) + v == v;
    } else {
      var w := Results(k) + v;
      assert w[0] == Recv(8) && w[1..][0] == Send(Data(OK));
      assert w[1..][1..] == Results(k - 1) + v;
      ResultsLatency(k - 1, v);
    }
  }

  lemma LatencyTask(ips: seq<Bytes>, v: seq<Op>)
    requires AllIpsOk(ips)
    ensures MainDialogue([Send(Command(MeasureLatency))] + (AskIps(ips) + [Send(Data(END))])
                         + Results(|ips|) + [Await] + v)
            <==> MainDialogue(v)
  {
    var w := [Send(Command(MeasureLatency))] + (AskIps(ips) + [Send(Data(END))]) + Results(|ips|) + [Await] + v;
    var results := Results(|ips|) + ([Await] + v);
    var ended := [Send(Data(END))] + results;
    assert w[1..] == AskIps(ips) + ended;
    assert ended[0] == Send(Data(END)) && ended[1..] == results;
    assert ([Await] + v)[1..] == v;
    AskIpsLatency(ips, ended, 0);
    ResultsLatency(|ips|, [Await] + v);
  }

  lemma ConnectDialogue(i: nat, ips: seq<Bytes>, bandwidth: Bytes, v: seq<Op>)
    requires i < 100 && AllIpsOk(ips) && PayloadOk(SetBandwidth, bandwidth)
    ensures IdDialogue(([Send(Data(TwoDigits(i)))] + AskIps(ips) + [Send(Data(END))])
                       + [Recv(2), Send(Command(SetBandwidth)), Send(Data(bandwidth))] + [Recv(2)] + v)
            <==> MainDialogue(v)
  {
    var w := ([Send(Data(TwoDigits(i)))] + AskIps(ips) + [Send(Data(END))])
             + [Recv(2), Send(Command(SetBandwidth)), Send(Data(bandwidth))] + [Recv(2)] + v;
    var main := [Send(Command(SetBandwidth)), Send(Data(bandwidth)), Recv(2)] + v;
    var ended := [Send(Data(END)), Recv(2)] + main;
    TwoDigitsRead(i);
    assert w[1..] == AskIps(ips) + ended;
    AskIpsSetup(ips, ended);
    assert ended[0] == Send(Data(END)) && ended[1] == Recv(2) && ended[2..] == main;
    BandwidthDialogue(bandwidth, v);
  }

  lemma BandwidthDialogue(bandwidth: Bytes, v: seq<Op>)
    requires PayloadOk(SetBandwidth, bandwidth)
    ensures MainDialogue([Send(Command(SetBandwidth)), Send(Data(bandwidth)), Recv(2)] + v) <==> MainDialogue(v)
  {
    var w := [Send(Command(SetBandwidth)), Send(Data(bandwidth)), Recv(2)] + v;
    var u := w[1..];
    assert u[0] == Send(Data(bandwidth)) && u[1..][0] == Recv(2) && u[1..][1..] == v;
    assert AfterCommand(SetBandwidth, u) <==> ReplyDialogue(SetBandwidth, u[1..]);
  }

  // The same for the server with the index testProxy, and for all tasks of a plan.

  function ProxylessOps(scenario: nat): seq<Op>
    requires scenario < 100
  {
    Exchanges(Setting(scenario)) + Exchanges([(RunSenders, []), (StopSenders, [])])
    + [Send(Command(StopProxies))] + Exchanges([(StopReceivers, [])])
  }

  /** Five scripts in a row. */
  lemma RestAppendFive(a: Script, b: Script, c: Script, d: Script, e: Script, j: nat)
    ensures Rest(a + b + c + d + e, j) == Rest(a, j) + Rest(b, j) + Rest(c, j) + Rest(d, j) + Rest(e, j)
  {
    RestAppend(a, b, j);
    RestAppend(a + b, c, j);
    RestAppend(a + b + c, d, j);
    RestAppend(a + b + c + d, e, j);
  }

  lemma RestTestProxy(n: nat, scenario: nat, testProxy: nat)
    requires scenario < 100 && testProxy < n
    ensures Rest(ScenarioScript(n, scenario, testProxy), testProxy) == ProxylessOps(scenario)
  {
    var a, c, e := Setting(scenario), [(RunSenders, []), (StopSenders, [])], [(StopReceivers, [])];
    RestBroadcastAll(n, a, testProxy);
    RestBroadcastAll(n, c, testProxy);
    RestBroadcastAll(n, e, testProxy);
    RestProxies(n, testProxy, testProxy);
    RestAppendFive(BroadcastAll(n, a), StartProxies(n, testProxy), BroadcastAll(n, c),
                  EndProxies(n, testProxy), BroadcastAll(n, e), testProxy);
    NoStart(Exchanges(a), Exchanges(c), [Send(Command(StopProxies))], Exchanges(e));
  }

  lemma NoStart(a: seq<Op>, c: seq<Op>, d: seq<Op>, e: seq<Op>)
    ensures a + [] + c + (d + []) + e == a + c + d + e
  {
  }

  lemma RestProxies(n: nat, testProxy: int, j: nat)
    requires j < n
    ensures Rest(StartProxies(n, testProxy), j) == if j == testProxy then [] else Exchange((RunProxies, []))
    ensures Rest(EndProxies(n, testProxy), j)
            == [Send(Command(StopProxies))] + (if j == testProxy then [] else [Await])
  {
    RestForEach(n, (i: nat) => if i == testProxy then [] else [Send(Command(RunProxies))], j);
    RestForEach(n, (i: nat) => if i == testProxy then [] else [Await], j);
    RestForEach(n, (i: nat) => [Send(Command(StopProxies))], j);
    RestAppend(ForEach(n, (i: nat) => if i == testProxy then [] else [Send(Command(RunProxies))]),
               AwaitOthers(n, testProxy), j);
    RestAppend(ForEach(n, (i: nat) => [Send(Command(StopProxies))]), AwaitOthers(n, testProxy), j);
  }

  lemma RestScenario(n: nat, scenario: nat, testProxy: int, j: nat)
    requires scenario < 100 && j < n && j != testProxy
    ensures Rest(ScenarioScript(n, scenario, testProxy), j) == Exchanges(ScenarioRequests(scenario))
  {
    var a, b, c := Setting(scenario), [(RunProxies, [])], [(RunSenders, []), (StopSenders, [])];
    var d, e := [(StopProxies, [])], [(StopReceivers, [])];
    var sa, sb, sc := BroadcastAll(n, a), StartProxies(n, testProxy), BroadcastAll(n, c);
    var sd, se := EndProxies(n, testProxy), BroadcastAll(n, e);
    RestBroadcastAll(n, a, j);
    RestBroadcastAll(n, c, j);
    RestBroadcastAll(n, e, j);
    RestProxies(n, testProxy, j);
    RestAppendFive(sa, sb, sc, sd, se, j);
    ExchangesAppend(a, b);
    ExchangesAppend(a + b, c);
    ExchangesAppend(a + b + c, d);
    ExchangesAppend(a + b + c + d, e);
    assert Exchanges(b) == Exchange((RunProxies, []));
    assert Exchanges(d) == Exchange((StopProxies, [])) == [Send(Command(StopProxies))] + [Await];
  }

  lemma ScenarioRequestsOk(scenario: nat)
    requires scenario < 100
    ensures RequestsOk(ScenarioRequests(scenario)) && RequestsOk(Setting(scenario))
  {
    TwoDigitsRead(scenario);
  }

  /** The scenario's actions in front of v on server j keep the dialogue, unless j is the test proxy. */
  lemma ScenarioDialogue(n: nat, scenario: nat, testProxy: int, j: nat, v: seq<Op>)
    requires scenario < 100 && j < n
    ensures MainDialogue(Rest(ScenarioScript(n, scenario, testProxy), j) + v) <==> j != testProxy && MainDialogue(v)
  {
    ScenarioRequestsOk(scenario);
    if j == testProxy {
      RestTestProxy(n, scenario, j);
      ProxylessBreaks(scenario, v);
    } else {
      RestScenario(n, scenario, testProxy, j);
      ExchangesDialogue(ScenarioRequests(scenario), v);
    }
  }

  lemma StopThenStop(v: seq<Op>)
    requires v != [] && v[0].Send?
    ensures !MainDialogue([Send(Command(StopProxies))] + v)
  {
    var tail := [Send(Command(StopProxies))] + v;
    assert tail[1..] == v;
    assert AfterCommand(StopProxies, tail[1..]) <==> ReplyDialogue(StopProxies, tail[1..]);
  }

  lemma ProxylessBreaks(scenario: nat, v: seq<Op>)
    requires scenario < 100
    ensures !MainDialogue(ProxylessOps(scenario) + v)
  {
    var a, c, e := Setting(scenario), [(RunSenders, []), (StopSenders, [])], Exchanges([(StopReceivers, [])]);
    var stop := [Send(Command(StopProxies))];
    ScenarioRequestsOk(scenario);
    assert Exchange((StopReceivers, []))[0] == Send(Command(StopReceivers)) == e[0];
    StopThenStop(e + v);
    ExchangesDialogue(c, stop + (e + v));
    ExchangesDialogue(a, Exchanges(c) + (stop + (e + v)));
    Regroup(Exchanges(a), Exchanges(c), stop, e, v);
  }

  lemma Regroup(a: seq<Op>, c: seq<Op>, d: seq<Op>, e: seq<Op>, v: seq<Op>)
    ensures a + c + d + e + v == a + (c + (d + (e + v)))
  {
  }

  lemma JoinDialogue(a: Script, b: Script, j: nat, v: seq<Op>)
    ensures MainDialogue(Rest(a + b, j) + v) <==> MainDialogue(Rest(a, j) + (Rest(b, j) + v))
  {
    RestAppend(a, b, j);
    assert Rest(a, j) + Rest(b, j) + v == Rest(a, j) + (Rest(b, j) + v);
  }

  lemma {:induction false} ScenariosDialogue(n: nat, scenarios: seq<nat>, testProxy: int, j: nat, v: seq<Op>)
    requires ScenariosOk(scenarios) && j < n
    ensures MainDialogue(Rest(ScenariosScript(n, scenarios, testProxy), j) + v)
            <==> (j != testProxy || scenarios == []) && MainDialogue(v)
  {
    if scenarios == [] {
      assert [] + v == v;
    } else {
      var b := ScenariosScript(n, scenarios[1..], testProxy);
      JoinDialogue(ScenarioScript(n, scenarios[0], testProxy), b, j, v);
      ScenarioDialogue(n, scenarios[0], testProxy, j, Rest(b, j) + v);
      ScenariosDialogue(n, scenarios[1..], testProxy, j, v);
    }
  }

  predicate RunsScenario(t: Task) {
    t.Experiment? && t.scenarios != []
  }

  lemma ScriptAfter(n: nat, cs: seq<Request>, b: Script, j: nat, v: seq<Op>)
    requires RequestsOk(cs) && j < n
    ensures MainDialogue(Rest(BroadcastAll(n, cs) + b, j) + v) <==> MainDialogue(Rest(b, j) + v)
  {
    RestAppend(BroadcastAll(n, cs), b, j);
    RestBroadcastAll(n, cs, j);
    ExchangesDialogue(cs, Rest(b, j) + v);
    assert Exchanges(cs) + Rest(b, j) + v == Exchanges(cs) + (Rest(b, j) + v);
  }

  lemma TaskDialogue(n: nat, t: Task, testProxy: int, j: nat, v: seq<Op>)
    requires TaskOk(t, n) && j < n
    ensures MainDialogue(Rest(TaskScript(n, t, testProxy), j) + v)
            <==> (j != testProxy || !RunsScenario(t)) && MainDialogue(v)
  {
    match t
    case Experiment(name, scenarios) =>
      ScenariosDialogue(n, scenarios, testProxy, j, v);
      ScriptAfter(n, [(MakeExp, name), (ClearResults, [])], ScenariosScript(n, scenarios, testProxy), j, v);
    case Latency(ips) =>
      RestLatency(ips, j);
      LatencyTask(ips[j], v);
  }

  lemma RestLatency(ips: seq<seq<Bytes>>, j: nat)
    requires j < |ips|
    ensures Rest(LatencyScript(ips), j)
            == [Send(Command(MeasureLatency))] + (AskIps(ips[j]) + [Send(Data(END))]) + Results(|ips[j]|) + [Await]
  {
    var n := |ips|;
    var f, g := (i: nat) => [Send(Command(MeasureLatency))], (i: nat) => [Await];
    RestForEach(n, f, j);
    RestForEach(n, AskOps(ips), j);
    RestForEach(n, ResultOps(ips), j);
    RestForEach(n, g, j);
    RestAppend(ForEach(n, f), ForEach(n, AskOps(ips)), j);
    RestAppend(ForEach(n, f) + ForEach(n, AskOps(ips)), ForEach(n, ResultOps(ips)), j);
    RestAppend(ForEach(n, f) + ForEach(n, AskOps(ips)) + ForEach(n, ResultOps(ips)), ForEach(n, g), j);
  }

  predicate SomeScenario(ts: seq<Task>) {
    ts != [] && (RunsScenario(ts[0]) || SomeScenario(ts[1..]))
  }

  lemma {:induction false} TasksDialogue(n: nat, ts: seq<Task>, testProxy: int, j: nat, v: seq<Op>)
    requires (forall k :: 0 <= k < |ts| ==> TaskOk(ts[k], n)) && j < n
    ensures MainDialogue(Rest(TasksScript(n, ts, testProxy), j) + v)
            <==> (j != testProxy || !SomeScenario(ts)) && MainDialogue(v)
  {
    if ts == [] {
      assert [] + v == v;
    } else {
      var b := TasksScript(n, ts[1..], testProxy);
      JoinDialogue(TaskScript(n, ts[0], testProxy), b, j, v);
      TaskDialogue(n, ts[0], testProxy, j, Rest(b, j) + v);
      TasksDialogue(n, ts[1..], testProxy, j, v);
    }
  }

  lemma RestConnect(p: Plan, j: nat)
    requires PlanOk(p) && j < |p.ips|
    ensures Rest(ConnectScript(p), j)
            == ([Send(Data(TwoDigits(j)))] + AskIps(p.ips[j]) + [Send(Data(END))])
               + [Recv(2), Send(Command(SetBandwidth)), Send(Data(p.bandwidth))] + [Recv(2)]
  {
    var n := |p.ips|;
    var f := (i: nat) => [Recv(2), Send(Command(SetBandwidth)), Send(Data(p.bandwidth))];
    var g := (i: nat) => [Recv(2)];
    RestForEach(n, ConnectOps(p.ips), j);
    RestForEach(n, f, j);
    RestForEach(n, g, j);
    RestAppend(ForEach(n, ConnectOps(p.ips)), ForEach(n, f), j);
    RestAppend(ForEach(n, ConnectOps(p.ips)) + ForEach(n, f), ForEach(n, g), j);
  }

  /** Connecting leaves the rest of the script to be a dialogue of commands. */
  lemma ConnectThen(p: Plan, b: Script, j: nat)
    requires PlanOk(p) && j < |p.ips|
    ensures IdDialogue(Rest(ConnectScript(p) + b, j)) <==> MainDialogue(Rest(b, j))
  {
    RestConnect(p, j);
    RestAppend(ConnectScript(p), b, j);
    ConnectDialogue(j, p.ips[j], p.bandwidth, Rest(b, j));
  }

  function QuitAll(n: nat): Script {
    ForEach(n, (i: nat) => [Send(Command(Quit))])
  }

  lemma RestQuit(n: nat, j: nat)
    requires j < n
    ensures Rest(QuitAll(n), j) == [Send(Command(Quit))] && MainDialogue(Rest(QuitAll(n), j))
  {
    RestForEach(n, (i: nat) => [Send(Command(Quit))], j);
    assert [Send(Command(Quit))][1..] == [];
  }

  /** What the lock-step needs of a plan. */
  predicate Conforms(p: Plan) {
    !IsServer(p.testProxy, |p.ips|) || !SomeScenario(p.tasks)
  }

  /** On every connection the controller's actions fit the grammar of the protocol exactly for conforming plans. */
  lemma SessionFollowsProtocol(p: Plan)
    requires PlanOk(p)
    ensures GoodScript(SessionScript(p), |p.ips|) <==> Conforms(p)
  {
    var n := |p.ips|;
    var tasks := TasksScript(n, p.tasks, p.testProxy);
    forall j: nat | j < n
      ensures IdDialogue(Rest(SessionScript(p), j)) <==> j != p.testProxy || !SomeScenario(p.tasks)
    {
      ConnectThen(p, tasks + QuitAll(n), j);
      RestAppend(tasks, QuitAll(n), j);
      RestQuit(n, j);
      TasksDialogue(n, p.tasks, p.testProxy, j, Rest(QuitAll(n), j));
    }
    if IsServer(p.testProxy, n) {
      assert IdDialogue(Rest(SessionScript(p), p.testProxy)) <==> !SomeScenario(p.tasks);
    }
  }

  // ----- whom the actions of a session concern

  predicate Targets(s: Script, n: nat) {
    forall k :: 0 <= k < |s| ==> s[k].0 < n
  }

  lemma ForEachTargets(n: nat, f: nat -> seq<Op>)
    ensures Targets(ForEach(n, f), n)
  {
    RestForEach(n, f, 0);
  }

  lemma {:induction false} BroadcastTargets(n: nat, cs: seq<Request>)
    ensures Targets(BroadcastAll(n, cs), n)
  {
    if cs != [] {
      ForEachTargets(n, (i: nat) => SendOps(cs[0]));
      ForEachTargets(n, (i: nat) => [Await]);
      BroadcastTargets(n, cs[1..]);
    }
  }

  lemma ProxiesTargets(n: nat, testProxy: int)
    ensures Targets(StartProxies(n, testProxy), n) && Targets(EndProxies(n, testProxy), n)
  {
    ForEachTargets(n, (i: nat) => if i == testProxy then [] else [Send(Command(RunProxies))]);
    ForEachTargets(n, (i: nat) => if i == testProxy then [] else [Await]);
    ForEachTargets(n, (i: nat) => [Send(Command(StopProxies))]);
  }

  lemma {:induction false} ScenariosTargets(n: nat, scenarios: seq<nat>, testProxy: int)
    requires ScenariosOk(scenarios)
    ensures Targets(ScenariosScript(n, scenarios, testProxy), n)
  {
    if scenarios != [] {
      BroadcastTargets(n, Setting(scenarios[0]));
      BroadcastTargets(n, [(RunSenders, []), (StopSenders, [])]);
      BroadcastTargets(n, [(StopReceivers, [])]);
      ProxiesTargets(n, testProxy);
      ScenariosTargets(n, scenarios[1..], testProxy);
    }
  }

  lemma LatencyTargets(ips: seq<seq<Bytes>>)
    ensures Targets(LatencyScript(ips), |ips|)
  {
    ForEachTargets(|ips|, (i: nat) => [Send(Command(MeasureLatency))]);
    ForEachTargets(|ips|, AskOps(ips));
    ForEachTargets(|ips|, ResultOps(ips));
    ForEachTargets(|ips|, (i: nat) => [Await]);
  }

  lemma {:induction false} TasksTargets(n: nat, ts: seq<Task>, testProxy: int)
    requires forall k :: 0 <= k < |ts| ==> TaskOk(ts[k], n)
    ensures Targets(TasksScript(n, ts, testProxy), n)
  {
    if ts != [] {
      match ts[0] {
        case Experiment(name, scenarios) =>
          BroadcastTargets(n, [(MakeExp, name), (ClearResults, [])]);
          ScenariosTargets(n, scenarios, testProxy);
        case Latency(ips) =>
          LatencyTargets(ips);
      }
      TasksTargets(n, ts[1..], testProxy);
    }
  }

  lemma ConnectTargets(p: Plan)
    requires PlanOk(p)
    ensures Targets(ConnectScript(p), |p.ips|)
  {
    var n := |p.ips|;
    ForEachTargets(n, ConnectOps(p.ips));
    ForEachTargets(n, (i: nat) => [Recv(2), Send(Command(SetBandwidth)), Send(Data(p.bandwidth))]);
    ForEachTargets(n, (i: nat) => [Recv(2)]);
  }

  lemma SessionTargets(p: Plan)
    requires PlanOk(p)
    ensures Targets(SessionScript(p), |p.ips|)
  {
    ConnectTargets(p);
    TasksTargets(|p.ips|, p.tasks, p.testProxy);
    ForEachTargets(|p.ips|, (i: nat) => [Send(Command(Quit))]);
  }

  // ----- the runs of a session

  /** A run of the program with plan p: all servers fresh, one for each entry, and the whole session to do. */
  ghost predicate SessionRun(p: Plan, run: seq<Sys>) {
    && PlanOk(p) && IsRun(run) && Init(run[0])
    && |run[0].chans| == |p.ips| && run[0].todo == SessionScript(p)
  }

  lemma SessionInv(p: Plan, run: seq<Sys>, i: nat)
    requires SessionRun(p, run) && Conforms(p) && i < |run|
    ensures Inv(run[i]) && |run[i].chans| == |p.ips|
  {
    RunKeepsSize(run, i);
    SessionFollowsProtocol(p);
    InitInv(run[0]);
    RunKeepsInv(run, i);
  }
}
