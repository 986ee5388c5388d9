/** How a session ends: its script can always be finished, and then every server has stopped. */
module WanEnding {
  import opened WanWire
  import opened WanSession
  import opened WanRun
  import opened WanScript

  predicate QuitsLast(v: seq<Op>) {
    v != [] && v[|v| - 1] == Send(Command(Quit))
  }

  /** The server has stopped, or the last thing on its way to it, or still to be sent to it, is the quit command. */
  ghost predicate WillStop(c: Chan, rest: seq<Op>) {
    c.pc == Stopped || QuitsLast(Sends(ToServer(c)) + rest)
  }

  /** A quit command that is about to be received finds the server at its command read. */
  lemma QuitIsCommand(pc: Pc, rq: seq<Msg>, sub: Sub)
    requires Fits(pc, [Command(Quit)], rq, sub, []) && Receiving(pc)
    ensures pc == AtCmd
  {
    SendsHead([Command(Quit)], []);
  }

  lemma QuitStops(c: Chan, sub: Sub, d: Chan)
    requires Healthy(c, sub, []) && ServerStep(c, d) && Receiving(c.pc) && ToServer(c) == [Command(Quit)]
    ensures d.pc == Stopped
  {
    QuitIsCommand(c.pc, ToController(c), sub);
    RequestWaits(c);
    RecvInStep(c.cSent, c.sGot, c.c2s, 2);
    DecodeCode(Quit);
  }

  lemma LastStays(pq: seq<Msg>, rest: seq<Op>)
    requires QuitsLast(Sends(pq) + rest) && pq != []
    ensures QuitsLast(Sends(pq[1..]) + rest) || (pq == [Command(Quit)] && rest == [])
  {
    SendsHead(pq, rest);
  }

  lemma ServerWillStop(c: Chan, sub: Sub, rest: seq<Op>, d: Chan)
    requires Healthy(c, sub, rest) && ServerStep(c, d) && WillStop(c, rest)
    ensures WillStop(d, rest)
  {
    if Receiving(c.pc) {
      ReceivingTakesOne(c, d);
      RequestWaits(c);
      assert ToServer(d) == ToServer(c)[1..];
      LastStays(ToServer(c), rest);
      if ToServer(c) == [Command(Quit)] && rest == [] {
        QuitStops(c, sub, d);
      }
    } else {
      SendsOrMoves(c, d);
      assert ToServer(d) == ToServer(c);
    }
  }

  lemma OneOnTheWay(c: Chan, m: Msg)
    requires Framed(c)
    ensures ToServer(CSend(c, m)) == ToServer(c) + [m]
  {
  }

  lemma SendWillStop(c: Chan, rest: seq<Op>)
    requires Framed(c) && WillStop(c, rest) && rest != [] && rest[0].Send?
    ensures WillStop(CSend(c, rest[0].msg), rest[1..])
  {
    OneOnTheWay(c, rest[0].msg);
    SendKeepsDialogue(ToServer(c), rest);
  }

  /** Inside a wait the controller only answers an error, and the quit command stays ahead. */
  lemma WaitWillStop(c: Chan, sub: Sub, rest: seq<Op>, c': Chan, sub': Sub, rest': seq<Op>)
    requires Framed(c) && ControllerStep(c, sub, rest, c', sub', rest') && WillStop(c, rest) && !rest[0].Send?
    ensures WillStop(c', rest')
  {
    if rest[0].Await? && sub == AtOk {
      OneOnTheWay(c, Data(OK));
    }
  }

  lemma ControllerWillStop(c: Chan, sub: Sub, rest: seq<Op>, c': Chan, sub': Sub, rest': seq<Op>)
    requires Healthy(c, sub, rest) && ControllerStep(c, sub, rest, c', sub', rest') && WillStop(c, rest)
    ensures WillStop(c', rest')
  {
    if rest[0].Send? {
      SendWillStop(c, rest);
    } else {
      WaitWillStop(c, sub, rest, c', sub', rest');
    }
  }

  ghost predicate WillStopAt(s: Sys, j: nat)
    requires j < |s.chans|
  {
    WillStop(s.chans[j], Rest(s.todo, j))
  }

  lemma ControllerMoveWillStop(s: Sys, t: Sys, j: nat)
    requires Inv(s) && ControllerMoves(s, t) && j < |s.chans| && WillStopAt(s, j)
    ensures WillStopAt(t, j)
  {
    var i := s.todo[0].0;
    var rest := Rest(s.todo, i);
    var rest' :| ControllerStep(s.chans[i], s.sub, rest, t.chans[i], t.sub, rest') &&
                 t.todo == (if rest' == rest then s.todo else s.todo[1..]);
    assert rest[1..] == Rest(s.todo[1..], i) && |rest[1..]| < |rest|;
    if j == i {
      assert HealthyAt(s, i);
      ControllerWillStop(s.chans[i], s.sub, rest, t.chans[i], t.sub, rest');
    }
  }

  lemma StepWillStop(s: Sys, t: Sys, j: nat)
    requires Inv(s) && Step(s, t) && j < |s.chans| && WillStopAt(s, j)
    ensures j < |t.chans| && WillStopAt(t, j)
  {
    if ControllerMoves(s, t) {
      ControllerMoveWillStop(s, t, j);
    } else {
      var i: nat :| ServerMoves(s, t, i);
      if i == j {
        assert HealthyAt(s, j);
        ServerWillStop(s.chans[j], SubOf(s, j), Rest(s.todo, j), t.chans[j]);
      }
    }
  }

  lemma {:induction false} RunWillStop(run: seq<Sys>, i: nat, j: nat)
    requires IsRun(run) && Inv(run[0]) && i < |run| && j < |run[0].chans| && WillStopAt(run[0], j)
    ensures j < |run[i].chans| && WillStopAt(run[i], j)
  {
    if i > 0 {
      RunWillStop(run, i - 1, j);
      RunKeepsInv(run, i - 1);
      assert Consecutive(run, i - 1);
      StepWillStop(run[i - 1], run[i], j);
    }
  }

  lemma SessionWillStop(p: Plan, j: nat)
    requires PlanOk(p) && j < |p.ips|
    ensures QuitsLast(Rest(SessionScript(p), j))
  {
    var n := |p.ips|;
    var tasks := TasksScript(n, p.tasks, p.testProxy);
    RestAppend(ConnectScript(p), tasks + QuitAll(n), j);
    RestAppend(tasks, QuitAll(n), j);
    RestQuit(n, j);
  }

  lemma StartWillStop(p: Plan, s: Sys, j: nat)
    requires PlanOk(p) && Init(s) && |s.chans| == |p.ips| && s.todo == SessionScript(p) && j < |p.ips|
    ensures WillStopAt(s, j)
  {
    SessionWillStop(p, j);
    assert ToServer(s.chans[j]) == [];
    assert Sends([]) + Rest(s.todo, j) == Rest(s.todo, j);
  }

  /** An empty stream to a server at its command read holds no message. */
  lemma NothingOnTheWay(c: Chan, sub: Sub)
    requires Healthy(c, sub, []) && c.pc == AtCmd && c.c2s == []
    ensures ToServer(c) == []
  {
    QueueMessages(c.pc, ToServer(c), ToController(c), sub, []);
  }

  lemma StuckHasStopped(s: Sys, j: nat)
    requires Inv(s) && !CanMove(s) && j < |s.chans| && WillStopAt(s, j)
    ensures s.todo == [] && s.chans[j].pc == Stopped && s.chans[j].c2s == [] && s.chans[j].s2c == []
  {
    StuckIsDone(s, j);
    assert HealthyAt(s, j);
    assert Sends([]) + [] == [];
    if s.chans[j].pc == AtCmd {
      NothingOnTheWay(s.chans[j], SubOf(s, j));
    }
  }

  /** A conforming session in which nothing moves any more is over: the script is done and every server has stopped. */
  lemma FinishedSession(p: Plan, run: seq<Sys>, i: nat, j: nat)
    requires SessionRun(p, run) && Conforms(p) && i < |run| && !CanMove(run[i]) && j < |p.ips|
    ensures run[i].todo == [] && |run[i].chans| == |p.ips|
    ensures run[i].chans[j].pc == Stopped && run[i].chans[j].c2s == [] && run[i].chans[j].s2c == []
  {
    SessionInv(p, run, 0);
    SessionInv(p, run, i);
    StartWillStop(p, run[0], j);
    RunWillStop(run, i, j);
    StuckHasStopped(run[i], j);
  }

  lemma RunAppend(run: seq<Sys>, i: nat, tail: seq<Sys>)
    requires IsRun(run) && IsRun(tail) && |run| == i + 1 && tail[0] == run[i]
    ensures IsRun(run + tail[1..])
  {
    var longer := run + tail[1..];
    forall k: nat | k + 1 < |longer| ensures Consecutive(longer, k) {
      if k + 1 < |run| {
        assert Consecutive(run, k);
      } else {
        assert Consecutive(tail, k - i);
      }
    }
  }

  /** Every run of a conforming session can move until its script is done, and can be run on to the end. */
  lemma SessionCompletes(p: Plan, run: seq<Sys>, i: nat) returns (whole: seq<Sys>, last: nat)
    requires SessionRun(p, run) && Conforms(p) && |run| == i + 1
    ensures run[i].todo != [] ==> CanMove(run[i])
    ensures run <= whole && SessionRun(p, whole) && |whole| == last + 1 && !CanMove(whole[last])
  {
    SessionInv(p, run, i);
    if run[i].todo != [] {
      NoDeadlock(run[i]);
    }
    var tail := RunsToTheEnd(run[i]);
    RunAppend(run, i, tail);
    whole := run + tail[1..];
    last := |whole| - 1;
    assert whole[last] == tail[|tail| - 1];
  }
}
