/** The phases of every experiment of a session, wherever it stands among the other tasks. */
module WanWhole {
  import opened WanWire
  import opened WanSession
  import opened WanRun
  import opened WanScript
  import opened WanLedger
  import opened WanBarrier
  import opened WanTail

  // ----- the same steps, counted from a later start

  /** The connection with the first n completed requests forgotten. */
  function Since(c: Chan, n: nat): Chan {
    if n <= |c.log| then c.(log := c.log[n..]) else c
  }

  function SysSince(s: Sys, base: seq<nat>): Sys
    requires |base| == |s.chans|
  {
    s.(chans := seq(|s.chans|, j requires 0 <= j < |s.chans| => Since(s.chans[j], base[j])))
  }

  ghost predicate Logged(s: Sys, base: seq<nat>) {
    |base| == |s.chans| && forall j :: 0 <= j < |base| ==> base[j] <= |s.chans[j].log|
  }

  lemma ReplySince(c: Chan, d: Chan, n: nat)
    requires c.pc.Reply? && ServerStep(c, d) && n <= |c.log|
    ensures n <= |d.log| && ServerStep(Since(c, n), Since(d, n))
  {
    assert (c.log + [(c.pc.cmd, c.pc.payload)])[n..] == c.log[n..] + [(c.pc.cmd, c.pc.payload)];
  }

  lemma LocalSince(c: Chan, d: Chan, n: nat)
    requires c.pc.Busy? || c.pc.Stopping? || c.pc.SendError? || c.pc.SendReason? || c.pc.AwaitOk?
    requires ServerStep(c, d) && n <= |c.log|
    ensures d.log == c.log && ServerStep(Since(c, n), Since(d, n))
  {
    if c.pc.SendReason? {
      var reason: Bytes :| 1 <= |reason| <= 200 && d == SSend(c, Data(reason)).(pc := AwaitOk(c.pc.kind, c.pc.todo));
      assert Since(d, n) == SSend(Since(c, n), Data(reason)).(pc := AwaitOk(c.pc.kind, c.pc.todo));
    }
  }

  lemma ServerStepSince(c: Chan, d: Chan, n: nat)
    requires ServerStep(c, d) && n <= |c.log|
    ensures n <= |d.log| && ServerStep(Since(c, n), Since(d, n))
  {
    if c.pc.Reply? {
      ReplySince(c, d, n);
    } else if c.pc.Busy? || c.pc.Stopping? || c.pc.SendError? || c.pc.SendReason? || c.pc.AwaitOk? {
      LocalSince(c, d, n);
    } else if c.pc.LatencySend? && c.pc.n > 0 {
      var latency: Bytes :| |latency| == 8 && d == SSend(c, Data(latency)).(pc := LatencyWait(c.pc.n - 1));
      assert Since(d, n) == SSend(Since(c, n), Data(latency)).(pc := LatencyWait(c.pc.n - 1));
    } else {
      assert d.log == c.log;
    }
  }

  lemma ControllerStepSince(c: Chan, sub: Sub, rest: seq<Op>, c': Chan, sub': Sub, rest': seq<Op>, n: nat)
    requires ControllerStep(c, sub, rest, c', sub', rest')
    ensures c'.log == c.log && ControllerStep(Since(c, n), sub, rest, Since(c', n), sub', rest')
  {
  }

  lemma StepSince(s: Sys, t: Sys, base: seq<nat>)
    requires Step(s, t) && Logged(s, base)
    ensures Logged(t, base) && Step(SysSince(s, base), SysSince(t, base))
  {
    if ControllerMoves(s, t) {
      var i := s.todo[0].0;
      var rest' :| ControllerStep(s.chans[i], s.sub, Rest(s.todo, i), t.chans[i], t.sub, rest') &&
                   t.todo == (if rest' == Rest(s.todo, i) then s.todo else s.todo[1..]);
      ControllerStepSince(s.chans[i], s.sub, Rest(s.todo, i), t.chans[i], t.sub, rest', base[i]);
      var s', t' := SysSince(s, base), SysSince(t, base);
      assert t'.chans == s'.chans[i := Since(t.chans[i], base[i])];
      assert ControllerStep(s'.chans[i], s'.sub, Rest(s'.todo, i), t'.chans[i], t'.sub, rest');
      assert ControllerMoves(s', t');
    } else {
      var j: nat :| ServerMoves(s, t, j);
      ServerStepSince(s.chans[j], t.chans[j], base[j]);
      assert SysSince(t, base).chans == SysSince(s, base).chans[j := Since(t.chans[j], base[j])];
      assert ServerMoves(SysSince(s, base), SysSince(t, base), j);
    }
  }

  // ----- a part of a run, as a run of its own

  /** The state without the script's end b, its logs counted from base on. */
  function Part(s: Sys, b: Script, base: seq<nat>): Sys
    requires |b| <= |s.todo| && |base| == |s.chans|
  {
    SysSince(Retail(s, b, []), base)
  }

  lemma PartStep(s: Sys, t: Sys, b: Script, base: seq<nat>)
    requires Step(s, t) && EndsIn(s, b) && EndsIn(t, b) && Logged(s, base)
    requires SendsFirst(b)
    ensures Logged(t, base) && Step(Part(s, b, base), Part(t, b, base))
  {
    StepIgnoresTail(s, t, b, []);
    StepSince(s, t, base);
    StepSince(Retail(s, b, []), Retail(t, b, []), base);
  }

  function Logs(s: Sys): seq<nat> {
    seq(|s.chans|, j requires 0 <= j < |s.chans| => |s.chans[j].log|)
  }

  /** run[a..i + 1], without the end b of the script and without the requests logged before a. */
  lemma {:induction false} PartOfRun(run: seq<Sys>, a: nat, i: nat, b: Script) returns (part: seq<Sys>)
    requires IsRun(run) && a <= i < |run| && EndsIn(run[i], b)
    requires SendsFirst(b)
    ensures EndsIn(run[a], b) && Logged(run[i], Logs(run[a]))
    ensures IsRun(part) && |part| == i - a + 1
    ensures part[0] == Part(run[a], b, Logs(run[a])) && part[i - a] == Part(run[i], b, Logs(run[a]))
    decreases i - a
  {
    RunShortens(run, i, a, b);
    var base := Logs(run[a]);
    if a == i {
      part := [Part(run[a], b, base)];
    } else {
      RunShortens(run, i, i - 1, b);
      var before := PartOfRun(run, a, i - 1, b);
      assert Consecutive(run, i - 1);
      PartStep(run[i - 1], run[i], b, base);
      part := before + [Part(run[i], b, base)];
      RunSnoc(before, i - 1 - a, Part(run[i], b, base));
    }
  }

  // ----- an experiment inside a session

  ghost predicate IdleChan(c: Chan) {
    AllIdle(c.tables.proxies) && AllIdle(c.tables.receivers) && AllIdle(c.tables.senders)
  }

  ghost predicate Idle(s: Sys) {
    forall j :: 0 <= j < |s.chans| ==> IdleChan(s.chans[j])
  }

  /** The controller is about to begin the requests cs, with b to follow, and no process runs. */
  ghost predicate Begins(s: Sys, cs: seq<Request>, b: Script) {
    && Inv(s) && Idle(s) && cs != [] && RequestsOk(cs) && s.todo == BroadcastAll(|s.chans|, cs) + b
    && SendsFirst(b)
  }

  lemma BeginsQuietly(s: Sys, cs: seq<Request>, b: Script, j: nat)
    requires Begins(s, cs, b) && j < |s.chans|
    ensures FreshlyQuiet(Since(s.chans[j], |s.chans[j].log|))
  {
    assert HealthyAt(s, j) && IdleChan(s.chans[j]);
    RestAppend(BroadcastAll(|s.chans|, cs), b, j);
    RestBroadcastAll(|s.chans|, cs, j);
    assert StartsCommand(Rest(s.todo, j));
    QuietAtCommand(s.chans[j], SubOf(s, j), Rest(s.todo, j));
  }

  lemma BeginsAtReply(s: Sys, cs: seq<Request>, b: Script)
    requires Begins(s, cs, b)
    ensures s.sub == AtReply
  {
    var n := |s.chans|;
    if n == 0 {
      BroadcastNobody(cs);
    } else {
      BroadcastStarts(n, cs[0]);
      assert BroadcastAll(n, [cs[0]]) == Broadcast(n, cs[0]);
      assert BroadcastAll(n, cs)[0] == Broadcast(n, cs[0])[0];
    }
  }

  lemma {:induction false} BroadcastNobody(cs: seq<Request>)
    ensures BroadcastAll(0, cs) == []
  {
    if cs != [] {
      BroadcastNobody(cs[1..]);
    }
  }

  lemma PartStarts(s: Sys, cs: seq<Request>, b: Script)
    requires Begins(s, cs, b)
    ensures EndsIn(s, b) && Start(Part(s, b, Logs(s)), cs)
  {
    var t := Part(s, b, Logs(s));
    BeginsAtReply(s, cs, b);
    forall j | 0 <= j < |t.chans| ensures FreshlyQuiet(t.chans[j]) {
      BeginsQuietly(s, cs, b, j);
    }
  }

  /** An experiment is under way in run[i]: it began in run[a], and b follows it. */
  ghost predicate Underway(run: seq<Sys>, a: nat, i: nat, name: Bytes, scenarios: seq<nat>, b: Script) {
    && IsRun(run) && a <= i < |run| && ScenariosOk(scenarios)
    && Begins(run[a], ExperimentRequests(name, scenarios), b) && EndsIn(run[i], b)
  }

  /** Server j in run[i], its requests counted from the beginning of the experiment. */
  function Server(run: seq<Sys>, a: nat, i: nat, j: nat): Chan
    requires a < |run| && i < |run| && j < |run[a].chans| && j < |run[i].chans|
  {
    Since(run[i].chans[j], |run[a].chans[j].log|)
  }

  lemma ExperimentPart(run: seq<Sys>, a: nat, i: nat, name: Bytes, scenarios: seq<nat>,
                       b: Script) returns (part: seq<Sys>)
    requires Underway(run, a, i, name, scenarios, b)
    ensures |run[i].chans| == |run[a].chans| && Logged(run[i], Logs(run[a]))
    ensures IsRun(part) && |part| == i - a + 1 && Start(part[0], ExperimentRequests(name, scenarios))
    ensures part[i - a] == Part(run[i], b, Logs(run[a]))
    ensures forall j: nat :: j < |run[i].chans| ==> part[i - a].chans[j] == Server(run, a, i, j)
  {
    part := PartOfRun(run, a, i, b);
    PartStarts(run[a], ExperimentRequests(name, scenarios), b);
  }

  /**
   * The phase barrier in a session: while any server has received the senders' start of a
   * scenario and not completed their stop, every server runs all its receivers and all its
   * proxies, started for this scenario.
   */
  lemma SendersNeedTheRestInSession(run: seq<Sys>, a: nat, i: nat, name: Bytes, scenarios: seq<nat>, b: Script,
                                    x: nat, sc: nat, j: nat)
    requires Underway(run, a, i, name, scenarios, b)
    requires x < |run[a].chans| == |run[i].chans| && j < |run[i].chans| && sc < |scenarios|
    requires Received(Server(run, a, i, x), At(sc, 5)) && |Server(run, a, i, x).log| <= At(sc, 6)
    ensures AllRunning(run[i].chans[j].tables.receivers, scenarios[sc])
    ensures AllRunning(run[i].chans[j].tables.proxies, scenarios[sc])
  {
    var part := ExperimentPart(run, a, i, name, scenarios, b);
    assert part[i - a].chans[x] == Server(run, a, i, x) && part[i - a].chans[j] == Server(run, a, i, j);
    SendersNeedTheRest(part, name, scenarios, i - a, x, sc, j);
  }

  /** In a session: while a proxy is up on any server, every server runs all its receivers. */
  lemma ProxiesNeedReceiversInSession(run: seq<Sys>, a: nat, i: nat, name: Bytes, scenarios: seq<nat>, b: Script,
                                      x: nat) returns (sc: nat)
    requires Underway(run, a, i, name, scenarios, b)
    requires x < |run[i].chans| && !AllIdle(run[i].chans[x].tables.proxies)
    ensures sc < |scenarios|
    ensures forall j: nat :: j < |run[i].chans| ==>
              AllRunning(run[i].chans[j].tables.receivers, scenarios[sc])
  {
    var part := ExperimentPart(run, a, i, name, scenarios, b);
    assert part[i - a].chans[x] == Server(run, a, i, x);
    sc := ProxiesNeedReceivers(part, name, scenarios, i - a, x);
    forall j: nat | j < |run[i].chans| ensures AllRunning(run[i].chans[j].tables.receivers, scenarios[sc]) {
      assert part[i - a].chans[j] == Server(run, a, i, j);
    }
  }

  lemma PartKeepsPrograms(run: seq<Sys>, a: nat, i: nat, name: Bytes, scenarios: seq<nat>, b: Script, j: nat, k: Kind)
    requires i + 1 < |run| && Underway(run, a, i, name, scenarios, b) && EndsIn(run[i + 1], b)
    requires j < |run[a].chans| == |run[i].chans| && Made(Server(run, a, i, j))
    ensures j < |run[i + 1].chans| == |run[i].chans| && Made(Server(run, a, i + 1, j))
    ensures run[i + 1].chans[j].tables.Of(k).Keys == run[i].chans[j].tables.Of(k).Keys
  {
    var cs, base := ExperimentRequests(name, scenarios), Logs(run[a]);
    var part := ExperimentPart(run, a, i, name, scenarios, b);
    var s := Part(run[i], b, base);
    ExperimentShape(name, scenarios);
    ConnectionAt(part, cs, i - a, j);
    OnlyFirstMakes(s.chans[j], cs, scenarios, Rest(s.todo, j));
    assert Consecutive(run, i);
    PartStep(run[i], run[i + 1], b, base);
    StepKeepsPrograms(s, Part(run[i + 1], b, base), j, k);
  }

  /** In a session: from the completion of the first request of an experiment on, a server knows the same programs. */
  lemma {:induction false} ProgramsStayInSession(run: seq<Sys>, a: nat, m: nat, i: nat, name: Bytes,
                                                 scenarios: seq<nat>, b: Script, j: nat, k: Kind)
    requires Underway(run, a, i, name, scenarios, b) && a <= m <= i
    requires j < |run[a].chans| == |run[m].chans| && Made(Server(run, a, m, j))
    ensures |run[i].chans| == |run[a].chans| && Made(Server(run, a, i, j))
    ensures run[i].chans[j].tables.Of(k).Keys == run[m].chans[j].tables.Of(k).Keys
    decreases i - m
  {
    if m < i {
      RunShortens(run, i, i - 1, b);
      ProgramsStayInSession(run, a, m, i - 1, name, scenarios, b, j, k);
      PartKeepsPrograms(run, a, i - 1, name, scenarios, b, j, k);
    }
  }

  // ----- after an experiment no process runs

  lemma EndIsIdle(c: Chan, sub: Sub, cs: seq<Request>, scenarios: seq<nat>, first: nat)
    requires IsExperiment(cs, scenarios) && Healthy(c, sub, []) && Ledger(c, cs, []) && TablesMatch(c, first)
    ensures IdleChan(c)
  {
    NothingLeft(c, cs);
    AllDoneAtEnd(c, sub, cs);
    KindEndsIdle(c, cs, scenarios, first, Proxy);
    KindEndsIdle(c, cs, scenarios, first, Receiver);
    KindEndsIdle(c, cs, scenarios, first, Sender);
  }

  lemma AllDoneAtEnd(c: Chan, sub: Sub, cs: seq<Request>)
    requires Healthy(c, sub, []) && Ledger(c, cs, []) && c.log == cs
    ensures (c.pc == AtCmd || c.pc == Stopped) && Done(c) == cs
  {
    assert cs[|cs|..] == [];
  }

  lemma KindEndsIdle(c: Chan, cs: seq<Request>, scenarios: seq<nat>, first: nat, k: Kind)
    requires IsExperiment(cs, scenarios) && TablesMatch(c, first)
    requires (c.pc == AtCmd || c.pc == Stopped) && Done(c) == cs
    ensures AllIdle(c.tables.Of(k))
  {
    assert cs[..|cs|] == cs;
    StatusAt(cs, scenarios, |scenarios|, 0, k, first);
    assert KindMatches(c, k);
  }

  lemma ExperimentEndsIdle(run: seq<Sys>, a: nat, i: nat, name: Bytes, scenarios: seq<nat>, b: Script)
    requires Underway(run, a, i, name, scenarios, b) && run[i].todo == b
    ensures Idle(run[i])
  {
    var cs := ExperimentRequests(name, scenarios);
    var part := ExperimentPart(run, a, i, name, scenarios, b);
    var last := part[i - a];
    assert last.todo == [];
    ExperimentShape(name, scenarios);
    forall j: nat | j < |run[i].chans| ensures IdleChan(run[i].chans[j]) {
      assert last.chans[j] == Server(run, a, i, j);
      ConnectionAt(part, cs, i - a, j);
      EndIsIdle(last.chans[j], SubOf(last, j), cs, scenarios, part[0].chans[j].scenario);
    }
  }

  // ----- the tasks between experiments, and the connecting, leave the processes alone

  predicate CalmCmd(cmd: Cmd) {
    cmd == SetBandwidth || cmd == MeasureLatency
  }

  predicate CalmMsg(m: Msg) {
    m.Command? ==> CalmCmd(m.cmd)
  }

  predicate CalmOp(op: Op) {
    op.Send? ==> CalmMsg(op.msg)
  }

  predicate CalmPc(pc: Pc) {
    && !pc.Stopping? && !pc.SendError? && !pc.SendReason? && !pc.AwaitOk?
    && ((pc.AtPayload? || pc.Busy?) ==> pc.cmd == SetBandwidth)
  }

  predicate CalmChan(c: Chan) {
    CalmPc(c.pc) && |c.sGot| <= |c.cSent| && forall k :: 0 <= k < |ToServer(c)| ==> CalmMsg(ToServer(c)[k])
  }

  predicate CalmOps(v: seq<Op>) {
    forall k :: 0 <= k < |v| ==> CalmOp(v[k])
  }

  predicate CalmScript(s: Script) {
    forall k :: 0 <= k < |s| ==> CalmOp(s[k].1)
  }

  lemma ReadingStaysCalm(c: Chan, sub: Sub, rest: seq<Op>, d: Chan)
    requires Healthy(c, sub, rest) && ServerStep(c, d) && CalmChan(c) && c.pc.AtCmd?
    ensures CalmChan(d) && d.tables == c.tables
  {
    var pq := ToServer(c);
    RequestWaits(c);
    ServerAsksWell(c.pc, pq, ToController(c), sub, rest);
    RecvInStep(c.cSent, c.sGot, c.c2s, 2);
    SendsHead(pq, rest);
    assert CalmMsg(pq[0]);
    DecodeCode(pq[0].cmd);
    assert ToServer(d) == pq[1..];
  }

  lemma ReceivingStaysCalm(c: Chan, sub: Sub, rest: seq<Op>, d: Chan)
    requires Healthy(c, sub, rest) && ServerStep(c, d) && CalmChan(c) && Receiving(c.pc) && !c.pc.AtCmd?
    ensures CalmChan(d) && d.tables == c.tables
  {
    ReceivingTakesOne(c, d);
    RequestWaits(c);
    assert ToServer(d) == ToServer(c)[1..];
  }

  lemma MovingStaysCalm(c: Chan, d: Chan)
    requires ServerStep(c, d) && CalmChan(c) && !Receiving(c.pc)
    ensures CalmChan(d) && d.tables == c.tables
  {
    SendsOrMoves(c, d);
    assert ToServer(d) == ToServer(c);
  }

  lemma ServerStaysCalm(c: Chan, sub: Sub, rest: seq<Op>, d: Chan)
    requires Healthy(c, sub, rest) && ServerStep(c, d) && CalmChan(c)
    ensures CalmChan(d) && d.tables == c.tables
  {
    if c.pc.AtCmd? {
      ReadingStaysCalm(c, sub, rest, d);
    } else if Receiving(c.pc) {
      ReceivingStaysCalm(c, sub, rest, d);
    } else {
      MovingStaysCalm(c, d);
    }
  }

  lemma ControllerStaysCalm(c: Chan, sub: Sub, rest: seq<Op>, c': Chan, sub': Sub, rest': seq<Op>)
    requires ControllerStep(c, sub, rest, c', sub', rest') && CalmChan(c) && CalmOp(rest[0])
    ensures CalmChan(c') && c'.tables == c.tables
  {
    assert c'.sGot == c.sGot;
    if c'.cSent != c.cSent {
      var m := c'.cSent[|c.cSent|];
      assert ToServer(c') == ToServer(c) + [m];
    } else {
      assert ToServer(c') == ToServer(c);
    }
  }

  /** Before the end b of the script there are only calm actions. */
  ghost predicate CalmSys(s: Sys, b: Script) {
    && EndsIn(s, b) && CalmScript(s.todo[..|s.todo| - |b|])
    && forall j :: 0 <= j < |s.chans| ==> CalmChan(s.chans[j])
  }

  predicate SameTables(s: Sys, t: Sys) {
    |t.chans| == |s.chans| && forall j :: 0 <= j < |t.chans| ==> t.chans[j].tables == s.chans[j].tables
  }

  /** A controller's step that keeps the end b concerns an action before it. */
  lemma HeadIsCalm(s: Sys, t: Sys, b: Script)
    requires Inv(s) && CalmSys(s, b) && ControllerMoves(s, t) && EndsIn(t, b) && SendsFirst(b)
    ensures CalmOp(s.todo[0].1) && CalmScript(t.todo[..|t.todo| - |b|])
  {
    ControllerIsBefore(s, t, b);
    StepShortens(s, t);
    var head := s.todo[..|s.todo| - |b|];
    assert head[0] == s.todo[0];
    if t.todo != s.todo {
      assert t.todo[..|t.todo| - |b|] == head[1..];
    }
  }

  lemma ControllerMoveStaysCalm(s: Sys, t: Sys, b: Script)
    requires Inv(s) && CalmSys(s, b) && ControllerMoves(s, t) && EndsIn(t, b) && SendsFirst(b)
    ensures CalmSys(t, b) && SameTables(s, t)
  {
    var i := s.todo[0].0;
    var rest := Rest(s.todo, i);
    var rest' :| ControllerStep(s.chans[i], s.sub, rest, t.chans[i], t.sub, rest') &&
                 t.todo == (if rest' == rest then s.todo else s.todo[1..]);
    HeadIsCalm(s, t, b);
    ControllerStaysCalm(s.chans[i], s.sub, rest, t.chans[i], t.sub, rest');
  }

  lemma ServerMoveStaysCalm(s: Sys, t: Sys, b: Script, j: nat)
    requires Inv(s) && CalmSys(s, b) && ServerMoves(s, t, j)
    ensures CalmSys(t, b) && SameTables(s, t)
  {
    assert HealthyAt(s, j);
    ServerStaysCalm(s.chans[j], SubOf(s, j), Rest(s.todo, j), t.chans[j]);
  }

  lemma StepStaysCalm(s: Sys, t: Sys, b: Script)
    requires Inv(s) && CalmSys(s, b) && Step(s, t) && EndsIn(t, b) && SendsFirst(b)
    ensures CalmSys(t, b) && SameTables(s, t)
  {
    if ControllerMoves(s, t) {
      ControllerMoveStaysCalm(s, t, b);
    } else {
      var j: nat :| ServerMoves(s, t, j);
      ServerMoveStaysCalm(s, t, b, j);
    }
  }

  lemma {:induction false} CalmRun(run: seq<Sys>, a: nat, i: nat, b: Script)
    requires IsRun(run) && a <= i < |run| && Inv(run[a]) && CalmSys(run[a], b) && EndsIn(run[i], b) && SendsFirst(b)
    ensures Inv(run[i]) && CalmSys(run[i], b) && SameTables(run[a], run[i])
    decreases i - a
  {
    if a < i {
      RunShortens(run, i, i - 1, b);
      CalmRun(run, a, i - 1, b);
      assert Consecutive(run, i - 1);
      StepKeepsInv(run[i - 1], run[i]);
      StepStaysCalm(run[i - 1], run[i], b);
    }
  }

  // ----- the scripts of a session

  /** What follows the first e tasks. */
  function Following(p: Plan, e: nat): Script
    requires PlanOk(p) && e <= |p.tasks|
  {
    TasksScript(|p.ips|, p.tasks[e..], p.testProxy) + QuitAll(|p.ips|)
  }

  lemma FollowingSplits(p: Plan, e: nat)
    requires PlanOk(p) && e < |p.tasks|
    ensures Following(p, e) == TaskScript(|p.ips|, p.tasks[e], p.testProxy) + Following(p, e + 1)
  {
    assert p.tasks[e..][1..] == p.tasks[e + 1..];
  }

  lemma {:induction false} NobodysTasks(ts: seq<Task>, testProxy: int)
    requires forall k :: 0 <= k < |ts| ==> TaskOk(ts[k], 0)
    ensures TasksScript(0, ts, testProxy) == []
  {
    if ts != [] {
      NobodysTasks(ts[1..], testProxy);
      match ts[0]
      case Experiment(name, scenarios) =>
        ExperimentIsBroadcast(0, name, scenarios, testProxy);
        BroadcastNobody(ExperimentRequests(name, scenarios));
      case Latency(ips) =>
    }
  }

  lemma LatencyHead(ips: seq<seq<Bytes>>)
    requires ips != []
    ensures LatencyScript(ips) != [] && LatencyScript(ips)[0].1 == Send(Command(MeasureLatency))
  {
    ForEachHead(|ips|, (i: nat) => [Send(Command(MeasureLatency))]);
  }

  lemma ExperimentHead(n: nat, cs: seq<Request>)
    requires n > 0 && cs != []
    ensures BroadcastAll(n, cs) != [] && BroadcastAll(n, cs)[0].1.Send?
  {
    BroadcastStarts(n, cs[0]);
    assert BroadcastAll(n, [cs[0]]) == Broadcast(n, cs[0]);
  }

  /** The end of the script never starts inside a wait. */
  lemma FollowingSends(p: Plan, e: nat)
    requires PlanOk(p) && e <= |p.tasks| && !IsServer(p.testProxy, |p.ips|)
    ensures SendsFirst(Following(p, e))
  {
    var n := |p.ips|;
    if n == 0 {
      NobodysTasks(p.tasks[e..], p.testProxy);
    } else if e == |p.tasks| {
      assert Following(p, e) == QuitAll(n);
      ForEachHead(n, (i: nat) => [Send(Command(Quit))]);
    } else {
      FollowingSplits(p, e);
      match p.tasks[e]
      case Experiment(name, scenarios) =>
        ExperimentIsBroadcast(n, name, scenarios, p.testProxy);
        ExperimentHead(n, ExperimentRequests(name, scenarios));
      case Latency(ips) => LatencyHead(ips);
    }
  }

  lemma {:induction false} CalmForEach(n: nat, f: nat -> seq<Op>)
    requires forall i: nat :: i < n ==> CalmOps(f(i))
    ensures CalmScript(ForEach(n, f))
  {
    if n > 0 {
      CalmForEach(n - 1, f);
    }
  }

  lemma {:induction false} CalmAskIps(ips: seq<Bytes>)
    ensures CalmOps(AskIps(ips))
  {
    if ips != [] {
      CalmAskIps(ips[1..]);
    }
  }

  lemma {:induction false} CalmResults(k: nat)
    ensures CalmOps(Results(k))
  {
    if k > 0 {
      CalmResults(k - 1);
    }
  }

  lemma CalmLatency(ips: seq<seq<Bytes>>)
    ensures CalmScript(LatencyScript(ips))
  {
    var n := |ips|;
    forall i: nat | i < n ensures CalmOps(AskOps(ips)(i)) && CalmOps(ResultOps(ips)(i)) {
      CalmAskIps(ips[i]);
      CalmResults(|ips[i]|);
    }
    CalmForEach(n, (i: nat) => [Send(Command(MeasureLatency))]);
    CalmForEach(n, AskOps(ips));
    CalmForEach(n, ResultOps(ips));
    CalmForEach(n, (i: nat) => [Await]);
  }

  lemma CalmConnect(p: Plan)
    requires PlanOk(p)
    ensures CalmScript(ConnectScript(p))
  {
    var n := |p.ips|;
    forall i: nat | i < n ensures CalmOps(ConnectOps(p.ips)(i)) {
      CalmAskIps(p.ips[i]);
    }
    CalmForEach(n, ConnectOps(p.ips));
    CalmForEach(n, (i: nat) => [Recv(2), Send(Command(SetBandwidth)), Send(Data(p.bandwidth))]);
    CalmForEach(n, (i: nat) => [Recv(2)]);
  }

  lemma SessionStart(p: Plan)
    requires PlanOk(p)
    ensures SessionScript(p) == ConnectScript(p) + Following(p, 0)
  {
    assert p.tasks[0..] == p.tasks;
  }

  // ----- between tasks no process runs

  /** A run of a session in which test_proxy names no server. */
  ghost predicate IsSession(p: Plan, run: seq<Sys>) {
    SessionRun(p, run) && !IsServer(p.testProxy, |p.ips|)
  }

  lemma FreshIsCalm(s: Sys, a: Script, b: Script)
    requires Init(s) && s.todo == a + b && CalmScript(a)
    ensures CalmSys(s, b) && Idle(s)
  {
    SplitEnd(s.todo, a, b);
  }

  lemma ConnectingIsCalm(p: Plan, run: seq<Sys>)
    requires IsSession(p, run)
    ensures CalmSys(run[0], Following(p, 0)) && Idle(run[0])
  {
    SessionStart(p);
    CalmConnect(p);
    FreshIsCalm(run[0], ConnectScript(p), Following(p, 0));
  }

  lemma TaskEndsIn(p: Plan, s: Sys, e: nat)
    requires PlanOk(p) && e < |p.tasks| && EndsIn(s, Following(p, e))
    ensures EndsIn(s, Following(p, e + 1))
  {
    FollowingSplits(p, e);
    EndOfEnd(s, Following(p, e), TaskScript(|p.ips|, p.tasks[e], p.testProxy), Following(p, e + 1));
  }

  lemma {:induction false} SessionEndsIn(p: Plan, s: Sys, e: nat)
    requires PlanOk(p) && e <= |p.tasks| && EndsIn(s, Following(p, 0))
    ensures EndsIn(s, Following(p, e))
  {
    if e > 0 {
      SessionEndsIn(p, s, e - 1);
      TaskEndsIn(p, s, e - 1);
    }
  }

  lemma SameTablesIdle(s: Sys, t: Sys)
    requires Idle(s) && SameTables(s, t)
    ensures Idle(t)
  {
    forall j | 0 <= j < |t.chans| ensures IdleChan(t.chans[j]) {
      assert IdleChan(s.chans[j]);
    }
  }

  lemma ConnectingIsIdle(p: Plan, run: seq<Sys>, a: nat)
    requires IsSession(p, run) && a < |run| && run[a].todo == Following(p, 0)
    ensures Idle(run[a])
  {
    ConnectingIsCalm(p, run);
    SessionInv(p, run, 0);
    FollowingSends(p, 0);
    CalmRun(run, 0, a, Following(p, 0));
    SameTablesIdle(run[0], run[a]);
  }

  lemma QuietIsCalm(s: Sys, j: nat)
    requires Inv(s) && j < |s.chans| && StartsCommand(Rest(s.todo, j))
    ensures CalmChan(s.chans[j])
  {
    assert HealthyAt(s, j);
    QuietAtCommand(s.chans[j], SubOf(s, j), Rest(s.todo, j));
  }

  lemma LatencyIsCalm(s: Sys, ips: seq<seq<Bytes>>, b: Script)
    requires Inv(s) && |s.chans| == |ips| && s.todo == LatencyScript(ips) + b
    ensures CalmSys(s, b)
  {
    SplitEnd(s.todo, LatencyScript(ips), b);
    CalmLatency(ips);
    forall j | 0 <= j < |s.chans| ensures CalmChan(s.chans[j]) {
      RestAppend(LatencyScript(ips), b, j);
      RestLatency(ips, j);
      QuietIsCalm(s, j);
    }
  }

  lemma LatencyStaysIdle(p: Plan, run: seq<Sys>, e: nat, a: nat, i: nat)
    requires IsSession(p, run) && e < |p.tasks| && p.tasks[e].Latency? && a <= i < |run|
    requires run[a].todo == Following(p, e) && run[i].todo == Following(p, e + 1) && Idle(run[a])
    ensures Idle(run[i])
  {
    FollowingSplits(p, e);
    FollowingSends(p, e + 1);
    SessionInv(p, run, a);
    LatencyIsCalm(run[a], p.tasks[e].ips, Following(p, e + 1));
    CalmRun(run, a, i, Following(p, e + 1));
    SameTablesIdle(run[a], run[i]);
  }

  lemma ExperimentBegins(p: Plan, run: seq<Sys>, e: nat, a: nat)
    requires IsSession(p, run) && e < |p.tasks| && p.tasks[e].Experiment? && a < |run|
    requires run[a].todo == Following(p, e) && Idle(run[a])
    ensures Begins(run[a], ExperimentRequests(p.tasks[e].name, p.tasks[e].scenarios), Following(p, e + 1))
  {
    var name, scenarios := p.tasks[e].name, p.tasks[e].scenarios;
    FollowingSplits(p, e);
    FollowingSends(p, e + 1);
    SessionInv(p, run, a);
    ExperimentIsBroadcast(|p.ips|, name, scenarios, p.testProxy);
    ExperimentRequestsOk(name, scenarios);
  }

  lemma {:induction false} ExperimentRequestsOk(name: Bytes, scenarios: seq<nat>)
    requires ScenariosOk(scenarios) && PayloadOk(MakeExp, name)
    ensures RequestsOk(ExperimentRequests(name, scenarios))
  {
    ScenariosRequestsOk(scenarios);
  }

  lemma {:induction false} ScenariosRequestsOk(scenarios: seq<nat>)
    requires ScenariosOk(scenarios)
    ensures RequestsOk(ScenariosRequests(scenarios))
  {
    if scenarios != [] {
      ScenarioRequestsOk(scenarios[0]);
      ScenariosRequestsOk(scenarios[1..]);
    }
  }

  lemma TaskBegins(p: Plan, run: seq<Sys>, e: nat, i: nat) returns (a: nat)
    requires IsSession(p, run) && e <= |p.tasks| && i < |run| && |run[i].todo| <= |Following(p, e)|
    ensures a <= i && run[a].todo == Following(p, e)
  {
    ConnectingIsCalm(p, run);
    SessionEndsIn(p, run[0], e);
    a := PassesThrough(run, Following(p, e), i);
  }

  lemma TaskShrinks(p: Plan, e: nat)
    requires PlanOk(p) && e < |p.tasks|
    ensures |Following(p, e + 1)| <= |Following(p, e)|
  {
    FollowingSplits(p, e);
  }

  lemma TaskStaysIdle(p: Plan, run: seq<Sys>, e: nat, a: nat, i: nat)
    requires IsSession(p, run) && e < |p.tasks| && a <= i < |run|
    requires run[a].todo == Following(p, e) && run[i].todo == Following(p, e + 1) && Idle(run[a])
    ensures Idle(run[i])
  {
    if p.tasks[e].Latency? {
      LatencyStaysIdle(p, run, e, a, i);
    } else {
      ExperimentBegins(p, run, e, a);
      ExperimentEndsIdle(run, a, i, p.tasks[e].name, p.tasks[e].scenarios, Following(p, e + 1));
    }
  }

  /** Whenever the controller is between two tasks of a session, no process runs on any server. */
  lemma {:induction false} IdleBetweenTasks(p: Plan, run: seq<Sys>, e: nat, a: nat)
    requires IsSession(p, run) && e <= |p.tasks| && a < |run| && run[a].todo == Following(p, e)
    ensures Idle(run[a])
  {
    if e == 0 {
      ConnectingIsIdle(p, run, a);
    } else {
      TaskShrinks(p, e - 1);
      var begin := TaskBegins(p, run, e - 1, a);
      IdleBetweenTasks(p, run, e - 1, begin);
      TaskStaysIdle(p, run, e - 1, begin, a);
    }
  }

  /**
   * Every experiment of every session is under way, in the sense of the barrier, from the state
   * in which the controller begins it to the state in which it begins the next task.
   */
  lemma ExperimentIsUnderway(p: Plan, run: seq<Sys>, e: nat, i: nat) returns (a: nat)
    requires IsSession(p, run) && e < |p.tasks| && p.tasks[e].Experiment? && i < |run|
    requires |Following(p, e + 1)| <= |run[i].todo| <= |Following(p, e)|
    ensures a <= i && run[a].todo == Following(p, e)
    ensures Underway(run, a, i, p.tasks[e].name, p.tasks[e].scenarios, Following(p, e + 1))
  {
    a := TaskBegins(p, run, e, i);
    IdleBetweenTasks(p, run, e, a);
    ExperimentBegins(p, run, e, a);
    StillAhead(p, run, e + 1, i);
  }

  lemma StillAhead(p: Plan, run: seq<Sys>, e: nat, i: nat)
    requires IsSession(p, run) && e <= |p.tasks| && i < |run| && |Following(p, e)| <= |run[i].todo|
    ensures EndsIn(run[i], Following(p, e))
  {
    ConnectingIsCalm(p, run);
    SessionEndsIn(p, run[0], e);
    StillEndsIn(run, i, Following(p, e));
  }
}
