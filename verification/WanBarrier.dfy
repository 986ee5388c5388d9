/** The phases of an experiment, over all interleavings of the controller with its servers. */
module WanBarrier {
  import opened Collections
  import opened WanWire
  import opened WanSession
  import opened WanRun
  import opened WanScript
  import opened WanLedger

  /** Every connection quiet, no process running, and the requests cs ahead for every server. */
  ghost predicate Start(s: Sys, cs: seq<Request>) {
    && RequestsOk(cs)
    && s.sub == AtReply && s.todo == BroadcastAll(|s.chans|, cs)
    && forall j :: 0 <= j < |s.chans| ==> FreshlyQuiet(s.chans[j])
  }

  ghost predicate FreshlyQuiet(c: Chan) {
    && c.pc == AtCmd && c.log == [] && Framed(c) && ToServer(c) == [] && ToController(c) == []
    && AllIdle(c.tables.proxies) && AllIdle(c.tables.receivers) && AllIdle(c.tables.senders)
  }

  /** Connection j of s agrees with the requests; s0 is the state at the start. */
  ghost predicate Recorded(s0: Sys, s: Sys, cs: seq<Request>, j: nat)
    requires j < |s.chans| == |s0.chans|
  {
    && Ledger(s.chans[j], cs, Rest(s.todo, j))
    && TablesMatch(s.chans[j], s0.chans[j].scenario)
  }

  ghost predicate EndOf(todo: Script, all: Script) {
    |todo| <= |all| && todo == all[|all| - |todo|..]
  }

  ghost predicate BarrierInv(s0: Sys, s: Sys, cs: seq<Request>) {
    && Inv(s) && |s.chans| == |s0.chans| && RequestsOk(cs)
    && EndOf(s.todo, BroadcastAll(|s.chans|, cs))
    && forall j: nat {:trigger Recorded(s0, s, cs, j)} :: j < |s.chans| ==> Recorded(s0, s, cs, j)
  }

  lemma StartsRecorded(c: Chan, cs: seq<Request>)
    requires FreshlyQuiet(c) && RequestsOk(cs)
    ensures Healthy(c, AtReply, Exchanges(cs)) && Ledger(c, cs, Exchanges(cs)) && TablesMatch(c, c.scenario)
  {
    ExchangesDialogue(cs, []);
    assert Exchanges(cs) + [] == Exchanges(cs);
    assert Sends([]) + Exchanges(cs) == Exchanges(cs);
    assert cs[0..] == cs;
  }

  lemma StartInv(s: Sys, cs: seq<Request>)
    requires Start(s, cs)
    ensures BarrierInv(s, s, cs)
  {
    var n := |s.chans|;
    BroadcastTargets(n, cs);
    forall j: nat | j < n ensures HealthyAt(s, j) && Recorded(s, s, cs, j) {
      RestBroadcastAll(n, cs, j);
      StartsRecorded(s.chans[j], cs);
    }
    var all := BroadcastAll(n, cs);
    assert all[|all| - |s.todo|..] == all;
  }

  lemma StepKeepsRecords(s0: Sys, s: Sys, t: Sys, cs: seq<Request>)
    requires BarrierInv(s0, s, cs) && Step(s, t)
    ensures BarrierInv(s0, t, cs)
  {
    StepKeepsInv(s, t);
    if ControllerMoves(s, t) {
      ControllerKeepsRecords(s0, s, t, cs);
    } else {
      var i: nat :| ServerMoves(s, t, i);
      forall j: nat | j < |t.chans| ensures Recorded(s0, t, cs, j) {
        assert Recorded(s0, s, cs, j) && HealthyAt(s, j);
        if j == i {
          var c, d := s.chans[j], t.chans[j];
          ServerKeepsLedger(c, SubOf(s, j), Rest(s.todo, j), d, cs);
          BusyIsOrdinary(c, SubOf(s, j), Rest(s.todo, j));
          ServerKeepsTables(c, d, s0.chans[j].scenario);
        }
      }
    }
  }

  lemma BusyIsOrdinary(c: Chan, sub: Sub, rest: seq<Op>)
    requires Healthy(c, sub, rest)
    ensures c.pc.Busy? ==> c.pc.cmd != Quit && c.pc.cmd != MeasureLatency
  {
  }

  lemma ControllerKeepsRecords(s0: Sys, s: Sys, t: Sys, cs: seq<Request>)
    requires BarrierInv(s0, s, cs) && ControllerMoves(s, t) && Inv(t)
    ensures BarrierInv(s0, t, cs)
  {
    var i := s.todo[0].0;
    var rest := Rest(s.todo, i);
    var rest' :| ControllerStep(s.chans[i], s.sub, rest, t.chans[i], t.sub, rest') &&
                 t.todo == (if rest' == rest then s.todo else s.todo[1..]);
    assert rest[1..] == Rest(s.todo[1..], i) && |rest[1..]| < |rest|;
    var all := BroadcastAll(|s.chans|, cs);
    assert all[|all| - |s.todo|..][1..] == all[|all| - |s.todo| + 1..];
    forall j: nat | j < |t.chans| ensures Recorded(s0, t, cs, j) {
      assert Recorded(s0, s, cs, j) && HealthyAt(s, j);
      if j == i {
        ControllerKeepsLedger(s.chans[i], s.sub, rest, t.chans[i], t.sub, rest', cs);
        ControllerKeepsTables(s.chans[i], s.sub, rest, t.chans[i], t.sub, rest', s0.chans[i].scenario);
      } else {
        assert Rest(t.todo, j) == Rest(s.todo, j);
      }
    }
  }

  lemma ControllerKeepsTables(c: Chan, sub: Sub, rest: seq<Op>, c': Chan, sub': Sub, rest': seq<Op>, first: nat)
    requires ControllerStep(c, sub, rest, c', sub', rest') && TablesMatch(c, first)
    ensures TablesMatch(c', first)
  {
    assert c'.pc == c.pc && c'.tables == c.tables && c'.log == c.log && c'.scenario == c.scenario;
    assert Done(c') == Done(c);
    forall k: Kind ensures KindMatches(c', k) <==> KindMatches(c, k) {
    }
  }

  lemma {:induction false} RunKeepsRecords(run: seq<Sys>, cs: seq<Request>, i: nat)
    requires IsRun(run) && Start(run[0], cs) && i < |run|
    ensures BarrierInv(run[0], run[i], cs)
  {
    if i == 0 {
      StartInv(run[0], cs);
    } else {
      RunKeepsRecords(run, cs, i - 1);
      assert Consecutive(run, i - 1);
      StepKeepsRecords(run[0], run[i - 1], run[i], cs);
    }
  }

  // ----- the script is never more than one request apart

  ghost predicate SuffixOf(v: seq<Op>, w: seq<Op>) {
    |v| <= |w| && v == w[|w| - |v|..]
  }

  /** Connection j has m commands ahead, or one less and the rest of the current one. */
  ghost predicate Balanced(rest: seq<Op>, m: nat) {
    CommandsIn(rest) + 1 == m || (CommandsIn(rest) == m && if m == 0 then rest == [] else StartsCommand(rest))
  }

  lemma {:induction false} RestOfSuffix(all: Script, p: nat, j: nat)
    requires p <= |all|
    ensures SuffixOf(Rest(all[p..], j), Rest(all, j))
  {
    if p > 0 {
      assert all[1..][p - 1..] == all[p..];
      RestOfSuffix(all[1..], p - 1, j);
    } else {
      assert all[0..] == all;
    }
  }

  lemma TailCommands(b: Bytes)
    ensures CommandsIn([]) == 0 && CommandsIn([Await]) == 0 && CommandsIn([Send(Data(b)), Await]) == 0
  {
    assert [Await][1..] == [] && [Send(Data(b)), Await][1..] == [Await];
  }

  lemma ExchangeSuffix(c: Request, u: seq<Op>)
    requires SuffixOf(u, Exchange(c))
    ensures if u == Exchange(c) then CommandsIn(u) == 1 && StartsCommand(u) else CommandsIn(u) == 0
  {
    ExchangeCommands(c);
    TailCommands(c.1);
    if |u| == |Exchange(c)| {
      assert u == Exchange(c);
    } else if |u| == 2 {
      assert u == [Send(Data(c.1)), Await];
    } else {
      assert u == [] || u == [Await];
    }
  }

  /** At every point of the script all connections are balanced around one number. */
  lemma {:induction false} ScriptBalanced(n: nat, cs: seq<Request>, p: nat) returns (m: nat)
    requires p <= |BroadcastAll(n, cs)|
    ensures m <= |cs| && forall j: nat :: j < n ==> Balanced(Rest(BroadcastAll(n, cs)[p..], j), m)
  {
    m := |cs|;
    var all := BroadcastAll(n, cs);
    if cs == [] {
      assert all[p..] == [];
      forall j: nat | j < n ensures Balanced(Rest(all[p..], j), 0) {
      }
    } else {
      var head, tail := Broadcast(n, cs[0]), BroadcastAll(n, cs[1..]);
      if p >= |head| {
        assert all[p..] == tail[p - |head|..];
        m := ScriptBalanced(n, cs[1..], p - |head|);
      } else {
        assert all[p..] == head[p..] + tail;
        forall j: nat | j < n ensures Balanced(Rest(all[p..], j), |cs|) {
          HeadBalanced(n, cs, p, j);
        }
      }
    }
  }

  lemma HeadBalanced(n: nat, cs: seq<Request>, p: nat, j: nat)
    requires cs != [] && p < |Broadcast(n, cs[0])| && j < n
    ensures Balanced(Rest(Broadcast(n, cs[0])[p..] + BroadcastAll(n, cs[1..]), j), |cs|)
  {
    var head, tail := Broadcast(n, cs[0]), BroadcastAll(n, cs[1..]);
    var u := Rest(head[p..], j);
    RestOfSuffix(head, p, j);
    RestBroadcast(n, cs[0], j);
    ExchangeSuffix(cs[0], u);
    RestAppend(head[p..], tail, j);
    RestBroadcastAll(n, cs[1..], j);
    CommandsInAppend(u, Exchanges(cs[1..]));
    ExchangesCommands(cs[1..]);
  }

  /** The server has received the command of request number m (counting from 0). */
  predicate Received(c: Chan, m: nat) {
    |c.log| > m || (|c.log| == m && InFlight(c.pc))
  }

  /** c has completed at least k requests of cs, in order, and has not received number k + 1. */
  ghost predicate Between(c: Chan, cs: seq<Request>, k: nat) {
    c.log <= cs && k <= |c.log| <= k + 1 && !Received(c, k + 1)
  }

  lemma ExchangesAwait(ahead: seq<Request>, ms: seq<Msg>)
    requires ahead != []
    ensures Exchanges(ahead) != Sends(ms)
  {
    ExchangeParts(ahead);
    var at := if HasPayload(ahead[0].0) then 2 else 1;
    assert Exchange(ahead[0])[at] == Await == Exchanges(ahead)[at];
  }

  lemma NothingLeft(c: Chan, cs: seq<Request>)
    requires Ledger(c, cs, [])
    ensures c.log == cs
  {
    var ahead, pq := cs[|c.log|..], ToServer(c);
    assert Sends(pq) + [] == Sends(pq);
    if c.pc.AtPayload? {
      assert [Send(Command(c.pc.cmd))] + Sends(pq) == Sends([Command(c.pc.cmd)] + pq);
      ExchangesAwait(ahead, [Command(c.pc.cmd)] + pq);
    } else if ahead != [] {
      ExchangesAwait(ahead, pq);
    }
  }

  lemma BalancedIsBetween(c: Chan, sub: Sub, rest: seq<Op>, cs: seq<Request>, m: nat)
    requires Healthy(c, sub, rest) && Ledger(c, cs, rest) && Balanced(rest, m) && m <= |cs|
    ensures Between(c, cs, |cs| - m)
  {
    CommandCounts(c, sub, rest, cs);
    if rest == [] {
      NothingLeft(c, cs);
    }
  }

  /** The state of every connection, as the lemmas below need it. */
  lemma ConnectionAt(run: seq<Sys>, cs: seq<Request>, i: nat, j: nat)
    requires IsRun(run) && Start(run[0], cs) && i < |run| && j < |run[i].chans|
    ensures |run[i].chans| == |run[0].chans|
    ensures Healthy(run[i].chans[j], SubOf(run[i], j), Rest(run[i].todo, j))
    ensures Ledger(run[i].chans[j], cs, Rest(run[i].todo, j))
    ensures TablesMatch(run[i].chans[j], run[0].chans[j].scenario)
  {
    RunKeepsRecords(run, cs, i);
    assert HealthyAt(run[i], j) && Recorded(run[0], run[i], cs, j);
  }

  lemma ScriptPoint(run: seq<Sys>, cs: seq<Request>, i: nat) returns (m: nat)
    requires IsRun(run) && Start(run[0], cs) && i < |run|
    ensures |run[i].chans| == |run[0].chans| && m <= |cs|
    ensures forall j: nat :: j < |run[i].chans| ==> Balanced(Rest(run[i].todo, j), m)
  {
    RunKeepsRecords(run, cs, i);
    var all := BroadcastAll(|run[i].chans|, cs);
    m := ScriptBalanced(|run[i].chans|, cs, |all| - |run[i].todo|);
  }

  /**
   * The barrier. In every reachable state there is a k such that every server has completed
   * at least k requests and no server has received more than k + 1.
   */
  lemma Barrier(run: seq<Sys>, cs: seq<Request>, i: nat) returns (k: nat)
    requires IsRun(run) && Start(run[0], cs) && i < |run|
    ensures |run[i].chans| == |run[0].chans|
    ensures forall j: nat :: j < |run[i].chans| ==> Between(run[i].chans[j], cs, k)
  {
    var m := ScriptPoint(run, cs, i);
    k := |cs| - m;
    forall j: nat | j < |run[i].chans| ensures Between(run[i].chans[j], cs, k) {
      ConnectionAt(run, cs, i, j);
      BalancedIsBetween(run[i].chans[j], SubOf(run[i], j), Rest(run[i].todo, j), cs, m);
    }
  }

  // ----- an experiment's requests, by scenario and position

  /** Where request o of scenario b stands in an experiment's list. */
  function At(b: nat, o: nat): nat {
    2 + 9 * b + o
  }

  lemma {:induction false} ScenarioAt(scenarios: seq<nat>, b: nat, o: nat)
    requires ScenariosOk(scenarios) && b < |scenarios| && o < 9
    ensures 9 * b + o < |ScenariosRequests(scenarios)| == 9 * |scenarios|
    ensures ScenariosRequests(scenarios)[9 * b + o] == ScenarioRequests(scenarios[b])[o]
  {
    ScenariosLength(scenarios);
    if b > 0 {
      ScenarioAt(scenarios[1..], b - 1, o);
      assert ScenariosRequests(scenarios)[9 * b + o] == ScenariosRequests(scenarios[1..])[9 * (b - 1) + o];
    }
  }

  lemma {:induction false} ScenariosLength(scenarios: seq<nat>)
    requires ScenariosOk(scenarios)
    ensures |ScenariosRequests(scenarios)| == 9 * |scenarios|
  {
    if scenarios != [] {
      ScenariosLength(scenarios[1..]);
    }
  }

  /** The nine requests of a scenario, in order. */
  function Phase(o: nat): Cmd {
    match o
    case 0 => TrafficControl case 1 => ClearSockets case 2 => SetScenario
    case 3 => RunReceivers case 4 => RunProxies case 5 => RunSenders
    case 6 => StopSenders case 7 => StopProxies case _ => StopReceivers
  }

  ghost predicate RequestIs(cs: seq<Request>, scenarios: seq<nat>, b: nat, o: nat)
    requires ScenariosOk(scenarios) && b < |scenarios|
  {
    && At(b, o) < |cs| && cs[At(b, o)].0 == Phase(o)
    && if o == 2 then ReadInt(cs[At(b, o)].1) == scenarios[b] else cs[At(b, o)].1 == []
  }

  /** cs is what an experiment with these scenarios asks of a server. */
  ghost predicate IsExperiment(cs: seq<Request>, scenarios: seq<nat>) {
    && ScenariosOk(scenarios) && |cs| == At(|scenarios|, 0) && cs[0].0 == MakeExp && cs[1].0 == ClearResults
    && forall b: nat, o: nat {:trigger RequestIs(cs, scenarios, b, o)} ::
         b < |scenarios| && o < 9 ==> RequestIs(cs, scenarios, b, o)
  }

  lemma RequestShape(name: Bytes, scenarios: seq<nat>, b: nat, o: nat)
    requires ScenariosOk(scenarios) && b < |scenarios| && o < 9
    ensures RequestIs(ExperimentRequests(name, scenarios), scenarios, b, o)
  {
    var cs := ExperimentRequests(name, scenarios);
    ScenariosLength(scenarios);
    ScenarioAt(scenarios, b, o);
    TwoDigitsRead(scenarios[b]);
    assert cs[At(b, o)] == ScenarioRequests(scenarios[b])[o];
  }

  lemma ExperimentShape(name: Bytes, scenarios: seq<nat>)
    requires ScenariosOk(scenarios)
    ensures IsExperiment(ExperimentRequests(name, scenarios), scenarios)
    ensures ExperimentRequests(name, scenarios)[0] == (MakeExp, name)
  {
    ScenariosLength(scenarios);
    forall b: nat, o: nat | b < |scenarios| && o < 9
      ensures RequestIs(ExperimentRequests(name, scenarios), scenarios, b, o)
    {
      RequestShape(name, scenarios, b, o);
    }
  }

  function PhaseStatus(k: Kind, o: nat): Status {
    var (up, down) := match k case Proxy => (5, 7) case Receiver => (4, 8) case Sender => (6, 6);
    if up <= o <= down then AllUp else AllDown
  }

  /** What is known of cs after its first h requests: the programs of kind k, and the scenario. */
  ghost predicate After(cs: seq<Request>, h: nat, k: Kind, status: Status) {
    h <= |cs| && StatusAfter(k, cs[..h]) == status
  }

  lemma AfterOne(cs: seq<Request>, h: nat, k: Kind, first: nat, status: Status)
    requires After(cs, h, k, status) && h < |cs|
    ensures After(cs, h + 1, k, Next(k, status, cs[h].0))
    ensures ScenarioAfter(cs[..h + 1], first)
            == if cs[h].0 == SetScenario then ReadInt(cs[h].1) else ScenarioAfter(cs[..h], first)
  {
    assert cs[..h + 1] == cs[..h] + [cs[h]];
    DoneGrows(cs[..h], cs[h], k, first);
  }

  lemma NextPhase(o: nat, k: Kind)
    requires o < 9
    ensures Next(k, PhaseStatus(k, o), Phase(o)) == PhaseStatus(k, o + 1)
  {
  }

  /** After the first o requests of a scenario, exactly the programs between their start and their stop run. */
  lemma {:induction false} StatusAt(cs: seq<Request>, scenarios: seq<nat>, b: nat, o: nat, k: Kind, first: nat)
    requires IsExperiment(cs, scenarios) && o <= 9 && (b < |scenarios| || (b == |scenarios| && o == 0))
    ensures After(cs, At(b, o), k, PhaseStatus(k, o))
    ensures o >= 3 ==> ScenarioAfter(cs[..At(b, o)], first) == scenarios[b]
    decreases b, o
  {
    if o == 0 && b == 0 {
      assert cs[..0] == [];
      AfterOne(cs, 0, k, first, AllDown);
      AfterOne(cs, 1, k, first, AllDown);
    } else if o == 0 {
      StatusAt(cs, scenarios, b - 1, 9, k, first);
      assert At(b - 1, 9) == At(b, 0);
    } else {
      StatusAt(cs, scenarios, b, o - 1, k, first);
      assert RequestIs(cs, scenarios, b, o - 1);
      NextPhase(o - 1, k);
      AfterOne(cs, At(b, o - 1), k, first, PhaseStatus(k, o - 1));
    }
  }

  lemma Position(h: nat) returns (b: nat, o: nat)
    requires h >= 2
    ensures h == At(b, o) && o < 9
  {
    b, o := (h - 2) / 9, (h - 2) % 9;
  }

  // ----- the programs that an experiment is about

  /** No statement but the branch that makes an experiment changes which programs a server knows. */
  lemma ServerKeepsPrograms(c: Chan, d: Chan, k: Kind)
    requires ServerStep(c, d) && WaitsForOwn(c) && !(c.pc.Busy? && c.pc.cmd == MakeExp)
    ensures d.tables.Of(k).Keys == c.tables.Of(k).Keys
  {
    if c.pc.Busy? {
      BusyKeepsPrograms(c, d, k);
    } else if c.pc.Stopping? || c.pc.AwaitOk? {
      StopKeepsPrograms(c, d, k);
    } else {
      assert d.tables == c.tables;
    }
  }

  lemma BusyKeepsPrograms(c: Chan, d: Chan, k: Kind)
    requires ServerStep(c, d) && c.pc.Busy? && c.pc.cmd != MakeExp
    ensures d.tables.Of(k).Keys == c.tables.Of(k).Keys
  {
  }

  lemma StopKeepsPrograms(c: Chan, d: Chan, k: Kind)
    requires ServerStep(c, d) && WaitsForOwn(c) && (c.pc.Stopping? || c.pc.AwaitOk?)
    ensures d.tables.Of(k).Keys == c.tables.Of(k).Keys
  {
    if c.pc.todo != [] {
      assert c.pc.todo[0] in ToSet(c.pc.todo);
    }
  }

  /** The server has made the experiment: the first request is complete. */
  predicate Made(c: Chan) {
    Done(c) != []
  }

  lemma OnlyFirstMakes(c: Chan, cs: seq<Request>, scenarios: seq<nat>, rest: seq<Op>)
    requires IsExperiment(cs, scenarios) && Ledger(c, cs, rest) && Made(c)
    ensures !(c.pc.Busy? && c.pc.cmd == MakeExp)
  {
    if c.pc.Busy? {
      var h := |c.log|;
      assert cs[h..][0] == cs[h] == (c.pc.cmd, c.pc.payload) && h > 0;
      if h >= 2 {
        var b, o := Position(h);
        assert RequestIs(cs, scenarios, b, o);
      }
    }
  }

  lemma ServerStaysMade(c: Chan, d: Chan)
    requires ServerStep(c, d) && Made(c) && c.pc != Stopped
    ensures Made(d)
  {
  }

  /** From the completion of its first request on, a server knows the same programs throughout the experiment. */
  lemma {:induction false} ProgramsStay(run: seq<Sys>, name: Bytes, scenarios: seq<nat>, a: nat, i: nat, j: nat,
                                        k: Kind)
    requires ScenariosOk(scenarios) && IsRun(run) && Start(run[0], ExperimentRequests(name, scenarios))
    requires a <= i < |run| && j < |run[a].chans| && Made(run[a].chans[j])
    ensures |run[i].chans| == |run[a].chans| && Made(run[i].chans[j])
    ensures run[i].chans[j].tables.Of(k).Keys == run[a].chans[j].tables.Of(k).Keys
    decreases i - a
  {
    if a < i {
      ProgramsStay(run, name, scenarios, a, i - 1, j, k);
      var cs := ExperimentRequests(name, scenarios);
      ExperimentShape(name, scenarios);
      ConnectionAt(run, cs, i - 1, j);
      OnlyFirstMakes(run[i - 1].chans[j], cs, scenarios, Rest(run[i - 1].todo, j));
      assert Consecutive(run, i - 1);
      StepKeepsPrograms(run[i - 1], run[i], j, k);
    }
  }

  lemma StepKeepsPrograms(s: Sys, t: Sys, j: nat, k: Kind)
    requires Step(s, t) && j < |s.chans| && WaitsForOwn(s.chans[j]) && Made(s.chans[j])
    requires !(s.chans[j].pc.Busy? && s.chans[j].pc.cmd == MakeExp)
    ensures |t.chans| == |s.chans| && Made(t.chans[j])
    ensures t.chans[j].tables.Of(k).Keys == s.chans[j].tables.Of(k).Keys
  {
    if ControllerMoves(s, t) {
      if j == s.todo[0].0 {
        assert t.chans[j].tables == s.chans[j].tables;
        assert t.chans[j].log == s.chans[j].log && t.chans[j].pc == s.chans[j].pc;
      }
    } else {
      var i: nat :| ServerMoves(s, t, i);
      if i == j {
        ServerKeepsPrograms(s.chans[j], t.chans[j], k);
        ServerStaysMade(s.chans[j], t.chans[j]);
      }
    }
  }

  // ----- what the barrier means for the processes

  /** How far a server is: the number of requests whose effect is complete. */
  lemma ProcessesAt(c: Chan, sub: Sub, rest: seq<Op>, cs: seq<Request>, scenarios: seq<nat>, first: nat, b: nat,
                    o: nat, k: Kind)
    requires IsExperiment(cs, scenarios)
    requires Healthy(c, sub, rest) && Ledger(c, cs, rest) && TablesMatch(c, first)
    requires |Done(c)| == At(b, o) && b < |scenarios| && o <= 9 && !StoppingKind(c.pc, k)
    ensures PhaseStatus(k, o) == AllUp && o >= 3 ==> AllRunning(c.tables.Of(k), scenarios[b])
    ensures PhaseStatus(k, o) == AllDown ==> AllIdle(c.tables.Of(k))
  {
    DoneIsPrefix(c, cs, rest);
    StatusAt(cs, scenarios, b, o, k, first);
    assert KindMatches(c, k);
  }

  lemma DoneIsPrefix(c: Chan, cs: seq<Request>, rest: seq<Op>)
    requires Ledger(c, cs, rest)
    ensures |Done(c)| <= |cs| && Done(c) == cs[..|Done(c)|]
  {
    if c.pc.Reply? {
      var ahead := cs[|c.log|..];
      assert cs[..|c.log| + 1] == cs[..|c.log|] + [ahead[0]];
    }
  }

  /** While a server stops programs of kind k, the request in hand is the stop of that kind. */
  lemma StoppingRequest(c: Chan, rest: seq<Op>, cs: seq<Request>, scenarios: seq<nat>, k: Kind) returns (b: nat)
    requires IsExperiment(cs, scenarios) && Ledger(c, cs, rest) && StoppingKind(c.pc, k)
    ensures b < |scenarios| && |c.log| == At(b, match k case Proxy => 7 case Receiver => 8 case Sender => 6)
  {
    assert cs[|c.log|..][0] == cs[|c.log|] == (StopOf(k), []);
    assert |c.log| >= 2;
    var o;
    b, o := Position(|c.log|);
    assert b < |scenarios|;
    assert RequestIs(cs, scenarios, b, o);
  }

  lemma SamePosition(b: nat, d: nat, b': nat, p: nat)
    requires d < 9 && p < 9 && At(b, 0) + d == At(b', p)
    ensures b == b' && d == p
  {
  }

  /** After request lo of scenario b and before request hi arrives a server runs all its programs of kind k. */
  lemma RunningBetween(c: Chan, sub: Sub, rest: seq<Op>, cs: seq<Request>, scenarios: seq<nat>, first: nat, b: nat,
                       lo: nat, hi: nat, k: Kind)
    requires IsExperiment(cs, scenarios) && b < |scenarios|
    requires Healthy(c, sub, rest) && Ledger(c, cs, rest) && TablesMatch(c, first)
    requires At(b, lo) <= |c.log| && !Received(c, At(b, hi)) && 3 <= lo <= hi < 9
    requires forall o: nat :: lo <= o <= hi ==> PhaseStatus(k, o) == AllUp
    ensures AllRunning(c.tables.Of(k), scenarios[b])
  {
    var o := |Done(c)| - At(b, 0);
    if StoppingKind(c.pc, k) {
      var d := |c.log| - At(b, 0);
      assert lo <= d < hi;
      var b' := StoppingRequest(c, rest, cs, scenarios, k);
      assert PhaseStatus(k, d + 1) == AllUp;
      SamePosition(b, d, b', match k case Proxy => 7 case Receiver => 8 case Sender => 6);
      assert false;
    }
    ProcessesAt(c, sub, rest, cs, scenarios, first, b, o, k);
  }

  lemma UpBetween(run: seq<Sys>, cs: seq<Request>, scenarios: seq<nat>, i: nat, j: nat, b: nat, lo: nat, hi: nat,
                  k: Kind)
    requires IsExperiment(cs, scenarios) && IsRun(run) && Start(run[0], cs)
             && i < |run| && j < |run[i].chans| && b < |scenarios|
    requires At(b, lo) <= |run[i].chans[j].log| && !Received(run[i].chans[j], At(b, hi)) && 3 <= lo <= hi < 9
    requires forall o: nat :: lo <= o <= hi ==> PhaseStatus(k, o) == AllUp
    ensures AllRunning(run[i].chans[j].tables.Of(k), scenarios[b])
  {
    ConnectionAt(run, cs, i, j);
    var c := run[i].chans[j];
    RunningBetween(c, SubOf(run[i], j), Rest(run[i].todo, j), cs, scenarios, run[0].chans[j].scenario, b, lo, hi, k);
  }

  /**
   * While any server has handled the senders' start of scenario b and not yet completed their
   * stop, every server runs all its receivers and all its proxies, started for this scenario.
   */
  lemma SendersNeedTheRest(run: seq<Sys>, name: Bytes, scenarios: seq<nat>, i: nat, a: nat, b: nat, j: nat)
    requires ScenariosOk(scenarios) && IsRun(run) && Start(run[0], ExperimentRequests(name, scenarios)) && i < |run|
    requires a < |run[i].chans| && j < |run[i].chans| && b < |scenarios|
    requires Received(run[i].chans[a], At(b, 5)) && |run[i].chans[a].log| <= At(b, 6)
    ensures At(b, 6) < |ExperimentRequests(name, scenarios)|
    ensures ExperimentRequests(name, scenarios)[At(b, 5)].0 == RunSenders
    ensures ExperimentRequests(name, scenarios)[At(b, 6)].0 == StopSenders
    ensures AllRunning(run[i].chans[j].tables.receivers, scenarios[b])
    ensures AllRunning(run[i].chans[j].tables.proxies, scenarios[b])
  {
    var cs := ExperimentRequests(name, scenarios);
    ExperimentShape(name, scenarios);
    assert RequestIs(cs, scenarios, b, 5) && RequestIs(cs, scenarios, b, 6);
    var k := Barrier(run, cs, i);
    assert Between(run[i].chans[a], cs, k) && Between(run[i].chans[j], cs, k);
    UpBetween(run, cs, scenarios, i, j, b, 5, 7, Proxy);
    UpBetween(run, cs, scenarios, i, j, b, 5, 7, Receiver);
  }

  /** A server with a proxy up has received the proxies' start of a scenario and not completed their stop. */
  lemma ProxyUpPosition(c: Chan, sub: Sub, rest: seq<Op>, cs: seq<Request>, scenarios: seq<nat>,
                        first: nat) returns (b: nat)
    requires IsExperiment(cs, scenarios) && Healthy(c, sub, rest) && Ledger(c, cs, rest) && TablesMatch(c, first)
    requires !AllIdle(c.tables.proxies)
    ensures b < |scenarios| && Received(c, At(b, 4)) && |c.log| <= At(b, 7)
  {
    if StoppingKind(c.pc, Proxy) {
      b := StoppingRequest(c, rest, cs, scenarios, Proxy);
    } else {
      assert KindMatches(c, Proxy);
      DoneIsPrefix(c, cs, rest);
      if |Done(c)| < 2 {
        FirstStatus(cs, |Done(c)|, scenarios);
      }
      var o;
      b, o := Position(|Done(c)|);
      StatusAt(cs, scenarios, b, o, Proxy, first);
    }
  }

  lemma FirstStatus(cs: seq<Request>, h: nat, scenarios: seq<nat>)
    requires IsExperiment(cs, scenarios) && h < 2
    ensures StatusAfter(Proxy, cs[..h]) == AllDown
  {
    assert cs[..0] == [];
    AfterOne(cs, 0, Proxy, 0, AllDown);
  }

  /** While a proxy is up on any server, every server runs all its receivers, started for the same scenario. */
  lemma ProxiesNeedReceivers(run: seq<Sys>, name: Bytes, scenarios: seq<nat>, i: nat, a: nat) returns (b: nat)
    requires ScenariosOk(scenarios) && IsRun(run) && Start(run[0], ExperimentRequests(name, scenarios)) && i < |run|
    requires a < |run[i].chans| && !AllIdle(run[i].chans[a].tables.proxies)
    ensures b < |scenarios|
    ensures forall j: nat :: j < |run[i].chans| ==>
              AllRunning(run[i].chans[j].tables.receivers, scenarios[b])
  {
    var s, cs := run[i], ExperimentRequests(name, scenarios);
    ExperimentShape(name, scenarios);
    ConnectionAt(run, cs, i, a);
    b := ProxyUpPosition(s.chans[a], SubOf(s, a), Rest(s.todo, a), cs, scenarios, run[0].chans[a].scenario);
    var k := Barrier(run, cs, i);
    assert Between(s.chans[a], cs, k);
    assert At(b, 4) <= k <= At(b, 7);
    forall j: nat | j < |s.chans| ensures AllRunning(s.chans[j].tables.receivers, scenarios[b]) {
      assert Between(s.chans[j], cs, k);
      UpBetween(run, cs, scenarios, i, j, b, 4, 8, Receiver);
    }
  }
}
