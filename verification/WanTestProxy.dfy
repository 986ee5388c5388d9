/** What goes wrong when test_proxy names a server: the reply to its stop command is never awaited. */
module WanTestProxy {
  import opened WanWire
  import opened WanSession
  import opened WanRun
  import opened WanScript
  import opened WanTail

  ghost predicate Quiet(c: Chan) {
    c.pc == AtCmd && c.c2s == [] && c.s2c == []
  }

  /** A connection on which a reply is still to be awaited is not quiet. */
  lemma AwaitedIsNotQuiet(c: Chan, sub: Sub, rest: seq<Op>)
    requires Healthy(c, sub, rest) && rest != [] && rest[0] == Await
    ensures !Quiet(c)
  {
    if c.pc == AtCmd && ToServer(c) == [] {
      assert Sends([]) + rest == rest;
    }
    QueueMessages(c.pc, ToServer(c), ToController(c), sub, rest);
  }

  // ----- the first scenario of a session

  /** The plans that fail: test_proxy names a server, and some task runs a scenario. */
  predicate Faulty(p: Plan) {
    PlanOk(p) && IsServer(p.testProxy, |p.ips|) && SomeScenario(p.tasks)
  }

  /** A task up to the moment when the wait for the stopped proxies of its first scenario returns. */
  function UntilStopped(n: nat, t: Task, testProxy: int): Script
    requires TaskOk(t, n) && RunsScenario(t)
  {
    BroadcastAll(n, [(MakeExp, t.name), (ClearResults, [])])
    + (BroadcastAll(n, Setting(t.scenarios[0])) + StartProxies(n, testProxy)
       + BroadcastAll(n, [(RunSenders, []), (StopSenders, [])]) + EndProxies(n, testProxy))
  }

  /** The rest of the task. */
  function FromReceivers(n: nat, t: Task, testProxy: int): Script
    requires TaskOk(t, n) && RunsScenario(t)
  {
    BroadcastAll(n, [(StopReceivers, [])]) + ScenariosScript(n, t.scenarios[1..], testProxy)
  }

  lemma TaskSplits(n: nat, t: Task, testProxy: int)
    requires TaskOk(t, n) && RunsScenario(t)
    ensures TaskScript(n, t, testProxy) == UntilStopped(n, t, testProxy) + FromReceivers(n, t, testProxy)
  {
    var e := BroadcastAll(n, [(MakeExp, t.name), (ClearResults, [])]);
    var a := BroadcastAll(n, Setting(t.scenarios[0])) + StartProxies(n, testProxy)
             + BroadcastAll(n, [(RunSenders, []), (StopSenders, [])]) + EndProxies(n, testProxy);
    var r, more := BroadcastAll(n, [(StopReceivers, [])]), ScenariosScript(n, t.scenarios[1..], testProxy);
    assert ScenariosScript(n, t.scenarios, testProxy) == (a + r) + more;
    Regrouped(e, a, r, more);
  }

  lemma Regrouped(e: Script, a: Script, r: Script, more: Script)
    ensures e + ((a + r) + more) == (e + a) + (r + more)
  {
  }

  predicate TasksOk(ts: seq<Task>, n: nat) {
    forall k :: 0 <= k < |ts| ==> TaskOk(ts[k], n)
  }

  /** The tasks up to the moment when the wait for the stopped proxies of the very first scenario returns. */
  function BeforeStopped(n: nat, ts: seq<Task>, testProxy: int): Script
    requires TasksOk(ts, n) && SomeScenario(ts)
  {
    if RunsScenario(ts[0]) then UntilStopped(n, ts[0], testProxy)
    else TaskScript(n, ts[0], testProxy) + BeforeStopped(n, ts[1..], testProxy)
  }

  /** The tasks from this moment on. */
  function AfterStopped(n: nat, ts: seq<Task>, testProxy: int): Script
    requires TasksOk(ts, n) && SomeScenario(ts)
  {
    if RunsScenario(ts[0]) then FromReceivers(n, ts[0], testProxy) + TasksScript(n, ts[1..], testProxy)
    else AfterStopped(n, ts[1..], testProxy)
  }

  lemma SplitTask(task: Script, a: Script, r: Script, tasks: Script)
    requires task == a + r
    ensures task + tasks == a + (r + tasks)
  {
  }

  lemma SplitTasks(tasks: Script, task: Script, a: Script, b: Script)
    requires tasks == a + b
    ensures task + tasks == (task + a) + b
  {
  }

  lemma {:induction false} TasksSplit(n: nat, ts: seq<Task>, testProxy: int)
    requires TasksOk(ts, n) && SomeScenario(ts)
    ensures TasksScript(n, ts, testProxy) == BeforeStopped(n, ts, testProxy) + AfterStopped(n, ts, testProxy)
  {
    var task, tasks := TaskScript(n, ts[0], testProxy), TasksScript(n, ts[1..], testProxy);
    if RunsScenario(ts[0]) {
      var a, r := UntilStopped(n, ts[0], testProxy), FromReceivers(n, ts[0], testProxy);
      TaskSplits(n, ts[0], testProxy);
      SplitTask(task, a, r, tasks);
    } else {
      TasksSplit(n, ts[1..], testProxy);
      SplitTasks(tasks, task, BeforeStopped(n, ts[1..], testProxy), AfterStopped(n, ts[1..], testProxy));
    }
  }

  /** The session up to the moment when the wait for the stopped proxies of its first scenario returns. */
  function UntilProxiesStopped(p: Plan): Script
    requires Faulty(p)
  {
    ConnectScript(p) + BeforeStopped(|p.ips|, p.tasks, p.testProxy)
  }

  /** Everything after it. */
  function FromReceiversOn(p: Plan): Script
    requires Faulty(p)
  {
    AfterStopped(|p.ips|, p.tasks, p.testProxy) + QuitAll(|p.ips|)
  }

  lemma SessionSplits(p: Plan)
    requires Faulty(p)
    ensures SessionScript(p) == UntilProxiesStopped(p) + FromReceiversOn(p)
  {
    TasksSplit(|p.ips|, p.tasks, p.testProxy);
    SplitParts(ConnectScript(p), BeforeStopped(|p.ips|, p.tasks, p.testProxy),
               AfterStopped(|p.ips|, p.tasks, p.testProxy), QuitAll(|p.ips|));
  }

  lemma SplitParts(c: Script, a: Script, b: Script, quit: Script)
    ensures c + ((a + b) + quit) == (c + a) + (b + quit)
  {
  }

  // ----- one more wait, and the session so far would follow the protocol

  /** Had the reply been awaited and the servers sent home, the script so far would follow the protocol. */
  function AwaitAndQuit(n: nat, testProxy: nat): Script {
    [(testProxy, Await)] + QuitAll(n)
  }

  lemma EndDialogue(n: nat, testProxy: nat, j: nat)
    requires j < n
    ensures MainDialogue(Rest(EndProxies(n, testProxy) + AwaitAndQuit(n, testProxy), j))
  {
    var c := AwaitAndQuit(n, testProxy);
    RestProxies(n, testProxy, j);
    RestAppend(EndProxies(n, testProxy), c, j);
    RestQuit(n, j);
    assert c[1..] == QuitAll(n);
    var quit := Rest(QuitAll(n), j);
    assert Rest(EndProxies(n, testProxy) + c, j) == Exchange((StopProxies, [])) + quit;
    ExchangeDialogue((StopProxies, []), quit);
  }

  lemma BroadcastThen(n: nat, cs: seq<Request>, b: Script, j: nat)
    requires RequestsOk(cs) && j < n && MainDialogue(Rest(b, j))
    ensures MainDialogue(Rest(BroadcastAll(n, cs) + b, j))
  {
    RestAppend(BroadcastAll(n, cs), b, j);
    RestBroadcastAll(n, cs, j);
    ExchangesDialogue(cs, Rest(b, j));
  }

  lemma StartThen(n: nat, testProxy: int, b: Script, j: nat)
    requires j < n && MainDialogue(Rest(b, j))
    ensures MainDialogue(Rest(StartProxies(n, testProxy) + b, j))
  {
    RestAppend(StartProxies(n, testProxy), b, j);
    RestProxies(n, testProxy, j);
    if j == testProxy {
      assert [] + Rest(b, j) == Rest(b, j);
    } else {
      ExchangeDialogue((RunProxies, []), Rest(b, j));
    }
  }

  lemma SendersThen(n: nat, testProxy: int, b: Script, j: nat)
    requires j < n && MainDialogue(Rest(b, j))
    ensures MainDialogue(Rest(StartProxies(n, testProxy)
                              + (BroadcastAll(n, [(RunSenders, []), (StopSenders, [])]) + b), j))
  {
    BroadcastThen(n, [(RunSenders, []), (StopSenders, [])], b, j);
    StartThen(n, testProxy, BroadcastAll(n, [(RunSenders, []), (StopSenders, [])]) + b, j);
  }

  lemma StoppedDialogue(n: nat, t: Task, testProxy: nat, j: nat)
    requires TaskOk(t, n) && RunsScenario(t) && j < n
    ensures MainDialogue(Rest(UntilStopped(n, t, testProxy) + AwaitAndQuit(n, testProxy), j))
  {
    var c := AwaitAndQuit(n, testProxy);
    var end := EndProxies(n, testProxy) + c;
    var first: seq<Request> := [(MakeExp, t.name), (ClearResults, [])];
    var senders := BroadcastAll(n, [(RunSenders, []), (StopSenders, [])]);
    var middle := StartProxies(n, testProxy) + (senders + end);
    EndDialogue(n, testProxy, j);
    SendersThen(n, testProxy, end, j);
    ScenarioRequestsOk(t.scenarios[0]);
    BroadcastThen(n, Setting(t.scenarios[0]), middle, j);
    BroadcastThen(n, first, BroadcastAll(n, Setting(t.scenarios[0])) + middle, j);
    SplitPrefix(BroadcastAll(n, first), BroadcastAll(n, Setting(t.scenarios[0])), StartProxies(n, testProxy), senders,
                EndProxies(n, testProxy), c);
  }

  lemma SplitPrefix(e: Script, a: Script, start: Script, s: Script, end: Script, c: Script)
    ensures (e + (a + start + s + end)) + c == e + (a + (start + (s + (end + c))))
  {
  }

  lemma {:induction false} BeforeDialogue(n: nat, ts: seq<Task>, testProxy: nat, j: nat)
    requires TasksOk(ts, n) && SomeScenario(ts) && j < n
    ensures MainDialogue(Rest(BeforeStopped(n, ts, testProxy) + AwaitAndQuit(n, testProxy), j))
  {
    if RunsScenario(ts[0]) {
      StoppedDialogue(n, ts[0], testProxy, j);
    } else {
      var a, b := TaskScript(n, ts[0], testProxy), BeforeStopped(n, ts[1..], testProxy);
      var c := AwaitAndQuit(n, testProxy);
      BeforeDialogue(n, ts[1..], testProxy, j);
      TaskDialogue(n, ts[0], testProxy, j, Rest(b + c, j));
      RestAppend(a, b + c, j);
      assert a + b + c == a + (b + c);
    }
  }

  lemma OnceAwaitedIsGood(p: Plan)
    requires Faulty(p)
    ensures GoodScript(UntilProxiesStopped(p) + AwaitAndQuit(|p.ips|, p.testProxy), |p.ips|)
  {
    var n, c := |p.ips|, AwaitAndQuit(|p.ips|, p.testProxy);
    var before := BeforeStopped(n, p.tasks, p.testProxy);
    assert UntilProxiesStopped(p) + c == ConnectScript(p) + (before + c);
    forall j: nat | j < n ensures IdDialogue(Rest(UntilProxiesStopped(p) + c, j)) {
      BeforeDialogue(n, p.tasks, p.testProxy, j);
      ConnectThen(p, before + c, j);
    }
  }

  lemma AwaitTargets(n: nat, testProxy: nat)
    requires testProxy < n
    ensures Targets(AwaitAndQuit(n, testProxy), n)
  {
    ForEachTargets(n, (i: nat) => [Send(Command(Quit))]);
  }

  lemma OtherTargets(a: Script, b: Script, c: Script, n: nat)
    requires Targets(a + b, n) && Targets(c, n)
    ensures Targets(a + c, n)
  {
    forall k | 0 <= k < |a + c| ensures (a + c)[k].0 < n {
      if k < |a| {
        assert (a + b)[k] == a[k];
      }
    }
  }

  lemma OnceAwaitedTargets(p: Plan)
    requires Faulty(p)
    ensures Targets(UntilProxiesStopped(p) + AwaitAndQuit(|p.ips|, p.testProxy), |p.ips|)
  {
    SessionTargets(p);
    SessionSplits(p);
    AwaitTargets(|p.ips|, p.testProxy);
    OtherTargets(UntilProxiesStopped(p), FromReceiversOn(p), AwaitAndQuit(|p.ips|, p.testProxy), |p.ips|);
  }

  /** The first thing after it, for every server, is the command to stop the receivers. */
  lemma {:induction false} StopReceiversNext(n: nat, ts: seq<Task>, testProxy: int, j: nat)
    requires TasksOk(ts, n) && SomeScenario(ts) && j < n
    ensures var b := AfterStopped(n, ts, testProxy);
            b != [] && b[0].1.Send? && Rest(b, j) != [] && Rest(b, j)[0] == Send(Command(StopReceivers))
  {
    if RunsScenario(ts[0]) {
      var r, more := BroadcastAll(n, [(StopReceivers, [])]), ScenariosScript(n, ts[0].scenarios[1..], testProxy);
      BroadcastStarts(n, (StopReceivers, []));
      RestBroadcastAll(n, [(StopReceivers, [])], j);
      RestAppend(r, more, j);
      RestAppend(r + more, TasksScript(n, ts[1..], testProxy), j);
      assert Exchanges([(StopReceivers, [])])[0] == Send(Command(StopReceivers));
    } else {
      StopReceiversNext(n, ts[1..], testProxy, j);
    }
  }

  lemma FirstIsSend(p: Plan)
    requires Faulty(p)
    ensures SendsFirst(FromReceiversOn(p))
    ensures StartsCommand(Rest(FromReceiversOn(p), p.testProxy))
  {
    StopReceiversNext(|p.ips|, p.tasks, p.testProxy, p.testProxy);
    RestAppend(AfterStopped(|p.ips|, p.tasks, p.testProxy), QuitAll(|p.ips|), p.testProxy);
  }

  // ----- the runs of such a session

  /** The start of the same session with the other end of the script is in the invariant. */
  lemma OtherStart(p: Plan, s: Sys)
    requires Faulty(p) && Init(s) && |s.chans| == |p.ips| && s.todo == SessionScript(p)
    ensures EndsIn(s, FromReceiversOn(p))
    ensures Inv(Retail(s, FromReceiversOn(p), AwaitAndQuit(|p.ips|, p.testProxy)))
  {
    SessionSplits(p);
    SplitEnd(s.todo, UntilProxiesStopped(p), FromReceiversOn(p));
    OnceAwaitedIsGood(p);
    OnceAwaitedTargets(p);
    InitInv(Retail(s, FromReceiversOn(p), AwaitAndQuit(|p.ips|, p.testProxy)));
  }

  /** As long as the end b of its script is not begun, a run is like one with the end c. */
  lemma ExchangedRun(run: seq<Sys>, b: Script, c: Script)
    requires IsRun(run) && EndsIn(run[0], b) && Inv(Retail(run[0], b, c))
    requires SendsFirst(b) && |b| <= |run[|run| - 1].todo|
    ensures EndsIn(run[|run| - 1], b) && Inv(Retail(run[|run| - 1], b, c))
  {
    StillEndsIn(run, |run| - 1, b);
    var other := RetailRun(run, b, c);
    RunKeepsInv(other, |run| - 1);
  }

  /** An await that only c has is left over when b begins. */
  lemma LeftBehind(run: seq<Sys>, b: Script, c: Script, j: nat)
    requires IsRun(run) && EndsIn(run[0], b) && Inv(Retail(run[0], b, c)) && SendsFirst(b)
    requires run[|run| - 1].todo == b && c != [] && c[0] == (j, Await)
    ensures |run[|run| - 1].chans| == |run[0].chans| && j < |run[0].chans|
    ensures !Quiet(run[|run| - 1].chans[j])
  {
    ExchangedRun(run, b, c);
    RunKeepsSize(run, |run| - 1);
    assert [] + c == c;
    AwaitingIsNotQuiet(Retail(run[|run| - 1], b, c), j);
  }

  lemma AwaitingIsNotQuiet(s: Sys, j: nat)
    requires Inv(s) && s.todo != [] && s.todo[0] == (j, Await)
    ensures j < |s.chans| && !Quiet(s.chans[j])
  {
    assert HealthyAt(s, j);
    AwaitedIsNotQuiet(s.chans[j], SubOf(s, j), Rest(s.todo, j));
  }

  /** What can move with the end c in the place of b can move with b. */
  lemma MovesAlike(s: Sys, b: Script, c: Script)
    requires EndsIn(s, b) && |s.todo| > |b| && Inv(Retail(s, b, c))
    ensures CanMove(s)
  {
    var other := Retail(s, b, c);
    SplitEnd(other.todo, s.todo[..|s.todo| - |b|], c);
    NoDeadlock(other);
    var t :| Step(other, t);
    StepShortens(other, t);
    assert EndsIn(t, c);
    StepIgnoresTail(other, t, c, b);
    assert Retail(other, c, b) == s;
  }

  /** A run that goes on until nothing moves begins b. */
  lemma FinishedRunBegins(run: seq<Sys>, b: Script, c: Script) returns (a: nat)
    requires IsRun(run) && EndsIn(run[0], b) && Inv(Retail(run[0], b, c)) && SendsFirst(b)
    requires !CanMove(run[|run| - 1])
    ensures a < |run| && run[a].todo == b
  {
    if |run[|run| - 1].todo| > |b| {
      ExchangedRun(run, b, c);
      MovesAlike(run[|run| - 1], b, c);
    }
    a := PassesThrough(run, b, |run| - 1);
  }

  /**
   * With test_proxy set to a server, in every run in which the wait for the stopped proxies of
   * the first scenario has returned, that server's connection is not quiet: its reply, or its
   * unfinished work, is still there although the next action on the connection is a command.
   */
  lemma TestProxyBreaksLockStep(p: Plan, run: seq<Sys>, a: nat)
    requires Faulty(p) && SessionRun(p, run)
    requires a < |run| && run[a].todo == FromReceiversOn(p)
    ensures |run[a].chans| == |p.ips|
    ensures StartsCommand(Rest(run[a].todo, p.testProxy))
    ensures !Quiet(run[a].chans[p.testProxy])
  {
    OtherStart(p, run[0]);
    FirstIsSend(p);
    RunPrefix(run, a);
    LeftBehind(run[..a + 1], FromReceiversOn(p), AwaitAndQuit(|p.ips|, p.testProxy), p.testProxy);
  }

  /** Every run of such a plan that goes on until nothing moves comes to this point. */
  lemma FinishedRunBreaks(p: Plan, run: seq<Sys>) returns (a: nat)
    requires Faulty(p) && SessionRun(p, run) && !CanMove(run[|run| - 1])
    ensures a < |run| && run[a].todo == FromReceiversOn(p)
  {
    OtherStart(p, run[0]);
    FirstIsSend(p);
    a := FinishedRunBegins(run, FromReceiversOn(p), AwaitAndQuit(|p.ips|, p.testProxy));
  }

  // ----- such runs exist

  function FreshSystem(n: nat, todo: Script): Sys {
    Sys(todo, AtReply, seq(n, j => FreshChan(Tables(map[], map[], map[]))))
  }

  /** A run in which the wait for the stopped proxies of the first scenario returns. */
  lemma BreakingRun(p: Plan) returns (run: seq<Sys>, a: nat)
    requires Faulty(p)
    ensures SessionRun(p, run) && a < |run| && run[a].todo == FromReceiversOn(p)
  {
    var n, b := |p.ips|, FromReceiversOn(p);
    var before, c := UntilProxiesStopped(p), AwaitAndQuit(|p.ips|, p.testProxy);
    OnceAwaitedIsGood(p);
    OnceAwaitedTargets(p);
    FreshStart(n, before + c);
    InitInv(FreshSystem(n, before + c));
    var whole := RunsToTheEnd(FreshSystem(n, before + c));
    run, a := CutAndRetail(whole, before, c, b);
    SessionTargets(p);
    SessionSplits(p);
    FreshStart(n, before + b);
  }

  lemma FreshStart(n: nat, todo: Script)
    requires Targets(todo, n)
    ensures Init(FreshSystem(n, todo)) && |FreshSystem(n, todo).chans| == n
  {
  }

  /** A run that uses up before + c, stopped where it begins c, with b in the place of c. */
  lemma CutAndRetail(whole: seq<Sys>, before: Script, c: Script, b: Script) returns (run: seq<Sys>, a: nat)
    requires IsRun(whole) && whole[0].todo == before + c && Inv(whole[|whole| - 1]) && !CanMove(whole[|whole| - 1])
    ensures IsRun(run) && run[0] == whole[0].(todo := before + b) && a < |run| && run[a].todo == b
  {
    if whole[|whole| - 1].todo != [] {
      NoDeadlock(whole[|whole| - 1]);
    }
    SplitEnd(before + c, before, c);
    a := PassesThrough(whole, c, |whole| - 1);
    RunPrefix(whole, a);
    var cut := whole[..a + 1];
    forall k: nat | k + 1 < |cut| ensures Ahead(cut[k], c) {
      assert |whole[k].todo| > |c|;
    }
    run := RetailRun(cut, c, b);
  }
}
