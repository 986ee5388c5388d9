/** When the controller and its servers stay in lock-step, and what a session may rely on then. */
module WanLockStep {
  import opened WanWire
  import opened WanSession
  import opened WanRun
  import opened WanScript
  import opened WanTail
  import opened WanTestProxy

  /** Connection j is in step: whenever the controller's next action on it starts a command, it is quiet. */
  ghost predicate InLockStep(s: Sys, j: nat)
    requires j < |s.chans|
  {
    StartsCommand(Rest(s.todo, j)) ==> Quiet(s.chans[j])
  }

  ghost predicate KeepsLockStep(run: seq<Sys>) {
    forall i: nat, j: nat {:trigger InLockStep(run[i], j)} :: i < |run| && j < |run[i].chans| ==> InLockStep(run[i], j)
  }

  lemma ConformingKeepsLockStep(p: Plan, run: seq<Sys>)
    requires SessionRun(p, run) && Conforms(p)
    ensures KeepsLockStep(run)
  {
    SessionFollowsProtocol(p);
    forall i: nat, j: nat | i < |run| && j < |run[i].chans| ensures InLockStep(run[i], j) {
      if StartsCommand(Rest(run[i].todo, j)) {
        QuietBetweenCommands(run, i, j);
      }
    }
  }

  lemma BrokenAt(p: Plan, run: seq<Sys>, a: nat)
    requires Faulty(p) && SessionRun(p, run) && a < |run| && run[a].todo == FromReceiversOn(p)
    ensures !KeepsLockStep(run)
  {
    TestProxyBreaksLockStep(p, run, a);
    assert !InLockStep(run[a], p.testProxy);
  }

  /** Every run of the session keeps the lock-step, whatever the servers do. */
  ghost predicate AlwaysInStep(p: Plan) {
    forall run :: SessionRun(p, run) ==> KeepsLockStep(run)
  }

  lemma FaultyIsNotInStep(p: Plan)
    requires Faulty(p)
    ensures !AlwaysInStep(p)
  {
    var run, a := BreakingRun(p);
    BrokenAt(p, run, a);
  }

  /**
   * The sessions that are safe: all runs of a plan keep the lock-step if and only if test_proxy
   * is not a server's index or no task runs a scenario.
   */
  lemma LockStepIff(p: Plan)
    requires PlanOk(p)
    ensures AlwaysInStep(p) <==> !IsServer(p.testProxy, |p.ips|) || !SomeScenario(p.tasks)
  {
    if Conforms(p) {
      forall run | SessionRun(p, run) ensures KeepsLockStep(run) {
        ConformingKeepsLockStep(p, run);
      }
    } else {
      FaultyIsNotInStep(p);
    }
  }

  /** The same for each single run that goes on until nothing moves: none of a faulty plan gets through in step. */
  lemma FinishedRunInStepIff(p: Plan, run: seq<Sys>)
    requires SessionRun(p, run) && !CanMove(run[|run| - 1])
    ensures KeepsLockStep(run) <==> !IsServer(p.testProxy, |p.ips|) || !SomeScenario(p.tasks)
  {
    if Conforms(p) {
      ConformingKeepsLockStep(p, run);
    } else {
      var a := FinishedRunBreaks(p, run);
      BrokenAt(p, run, a);
    }
  }

  // ----- what a conforming session may rely on

  /** The actions of the controller that begin a round of commands, one to every server. */
  ghost predicate IsRound(front: Script, n: nat) {
    || (exists c :: front == Broadcast(n, c))
    || (exists ips :: |ips| == n && front == LatencyScript(ips))
    || front == QuitAll(n)
  }

  lemma RoundStartsCommands(front: Script, b: Script, n: nat, j: nat)
    requires IsRound(front, n) && j < n
    ensures StartsCommand(Rest(front + b, j))
  {
    RestAppend(front, b, j);
    if c :| front == Broadcast(n, c) {
      RestBroadcast(n, c, j);
    } else if ips :| |ips| == n && front == LatencyScript(ips) {
      RestLatency(ips, j);
    } else {
      RestQuit(n, j);
    }
  }

  /** Whenever the controller is about to send a command to all servers, every connection is quiet. */
  lemma QuietBeforeRound(p: Plan, run: seq<Sys>, i: nat, front: Script, b: Script, j: nat)
    requires SessionRun(p, run) && Conforms(p) && i < |run|
    requires run[i].todo == front + b && IsRound(front, |p.ips|) && j < |p.ips|
    ensures |run[i].chans| == |p.ips| && Quiet(run[i].chans[j])
  {
    RunKeepsSize(run, i);
    ConformingKeepsLockStep(p, run);
    RoundStartsCommands(front, b, |p.ips|, j);
    assert InLockStep(run[i], j);
  }

  /** In every state of every conforming session all messages are received whole, once and in order. */
  lemma SessionFramed(p: Plan, run: seq<Sys>, i: nat, j: nat)
    requires SessionRun(p, run) && Conforms(p) && i < |run| && j < |p.ips|
    ensures |run[i].chans| == |p.ips| && Framed(run[i].chans[j])
    ensures run[i].chans[j].pc != Crashed && run[i].chans[j].pc != ReplyUnknown
  {
    RunKeepsSize(run, i);
    SessionFollowsProtocol(p);
    Framing(run, i, j);
  }
}
