/** The controller with all its servers: interleaved steps, and what every run keeps. */
module WanRun {
  import opened WanWire
  import opened WanSession

  /** What the controller still does, each action with the index of its connection. */
  type Script = seq<(nat, Op)>

  datatype Sys = Sys(todo: Script, sub: Sub, chans: seq<Chan>)

  /** The actions of a script on connection j. */
  function Rest(todo: Script, j: nat): seq<Op> {
    if todo == [] then []
    else if todo[0].0 == j then [todo[0].1] + Rest(todo[1..], j)
    else Rest(todo[1..], j)
  }

  function SubOf(s: Sys, j: nat): Sub {
    if s.todo != [] && s.todo[0].0 == j then s.sub else AtReply
  }

  ghost predicate ControllerMoves(s: Sys, t: Sys) {
    && s.todo != [] && s.todo[0].0 < |s.chans| == |t.chans|
    && var i := s.todo[0].0;
       exists rest' ::
         && ControllerStep(s.chans[i], s.sub, Rest(s.todo, i), t.chans[i], t.sub, rest')
         && t.todo == (if rest' == Rest(s.todo, i) then s.todo else s.todo[1..])
         && t.chans == s.chans[i := t.chans[i]]
  }

  ghost predicate ServerMoves(s: Sys, t: Sys, j: nat) {
    j < |s.chans| == |t.chans| && ServerStep(s.chans[j], t.chans[j]) && t == s.(chans := s.chans[j := t.chans[j]])
  }

  ghost predicate Step(s: Sys, t: Sys) {
    ControllerMoves(s, t) || exists j: nat :: ServerMoves(s, t, j)
  }

  ghost predicate IsRun(run: seq<Sys>) {
    run != [] && forall i: nat {:trigger Consecutive(run, i)} :: i + 1 < |run| ==> Consecutive(run, i)
  }

  ghost predicate Consecutive(run: seq<Sys>, i: nat)
    requires i + 1 < |run|
  {
    Step(run[i], run[i + 1])
  }

  ghost predicate HealthyAt(s: Sys, j: nat)
    requires j < |s.chans|
  {
    Healthy(s.chans[j], SubOf(s, j), Rest(s.todo, j))
  }

  ghost predicate Inv(s: Sys) {
    && (forall k :: 0 <= k < |s.todo| ==> s.todo[k].0 < |s.chans|)
    && (s.sub != AtReply ==> s.todo != [] && s.todo[0].1 == Await)
    && (forall j: nat {:trigger HealthyAt(s, j)} :: j < |s.chans| ==> HealthyAt(s, j))
  }

  lemma ControllerKeepsInv(s: Sys, t: Sys)
    requires Inv(s) && ControllerMoves(s, t)
    ensures Inv(t)
  {
    var i := s.todo[0].0;
    var rest := Rest(s.todo, i);
    var rest' :| ControllerStep(s.chans[i], s.sub, rest, t.chans[i], t.sub, rest') &&
                 t.todo == (if rest' == rest then s.todo else s.todo[1..]);
    assert rest[1..] == Rest(s.todo[1..], i) && |rest[1..]| < |rest|;
    forall j: nat | j < |t.chans| ensures HealthyAt(t, j) {
      assert HealthyAt(s, j);
      if j == i {
        ControllerKeepsHealthy(s.chans[i], s.sub, rest, t.chans[i], t.sub, rest');
      } else {
        assert Rest(t.todo, j) == Rest(s.todo, j);
        assert SubOf(t, j) == AtReply;
      }
    }
  }

  lemma ServerKeepsInv(s: Sys, t: Sys, j: nat)
    requires Inv(s) && ServerMoves(s, t, j)
    ensures Inv(t)
  {
    forall i: nat | i < |t.chans| ensures HealthyAt(t, i) {
      assert HealthyAt(s, i);
      if i == j {
        ServerKeepsHealthy(s.chans[j], SubOf(s, j), Rest(s.todo, j), t.chans[j]);
      }
    }
  }

  lemma StepKeepsInv(s: Sys, t: Sys)
    requires Inv(s) && Step(s, t)
    ensures Inv(t)
  {
    if ControllerMoves(s, t) {
      ControllerKeepsInv(s, t);
    } else {
      var j: nat :| ServerMoves(s, t, j);
      ServerKeepsInv(s, t, j);
    }
  }

  lemma {:induction false} RunKeepsInv(run: seq<Sys>, i: nat)
    requires IsRun(run) && Inv(run[0]) && i < |run|
    ensures Inv(run[i])
  {
    if i > 0 {
      RunKeepsInv(run, i - 1);
      assert Consecutive(run, i - 1);
      StepKeepsInv(run[i - 1], run[i]);
    }
  }

  // ----- the start

  function FreshChan(tables: Tables): Chan {
    Chan(AtId, [], [], tables, 0, [], [], [], [], [])
  }

  ghost predicate Init(s: Sys) {
    && s.sub == AtReply
    && (forall j :: 0 <= j < |s.chans| ==> s.chans[j] == FreshChan(Tables(map[], map[], map[])))
    && (forall k :: 0 <= k < |s.todo| ==> s.todo[k].0 < |s.chans|)
  }

  /** The controller follows the protocol on every connection. */
  ghost predicate GoodScript(todo: Script, n: nat) {
    forall j: nat {:trigger Rest(todo, j)} :: j < n ==> IdDialogue(Rest(todo, j))
  }

  lemma InitInv(s: Sys)
    requires Init(s) && GoodScript(s.todo, |s.chans|)
    ensures Inv(s)
  {
    forall j: nat | j < |s.chans| ensures HealthyAt(s, j) {
      assert Sends([]) + Rest(s.todo, j) == Rest(s.todo, j);
      assert s.chans[j] == FreshChan(Tables(map[], map[], map[]));
    }
  }

  /**
   * Framing. In every state of every run that starts with a protocol-conforming script, each
   * recv of either end has returned exactly one sent message, in the order of sending, and
   * what is still in the two streams is exactly the messages not yet received.
   */
  lemma Framing(run: seq<Sys>, i: nat, j: nat)
    requires IsRun(run) && Init(run[0]) && GoodScript(run[0].todo, |run[0].chans|)
    requires i < |run| && j < |run[i].chans|
    ensures Framed(run[i].chans[j])
    ensures run[i].chans[j].pc != Crashed && run[i].chans[j].pc != ReplyUnknown
  {
    InitInv(run[0]);
    RunKeepsInv(run, i);
    assert HealthyAt(run[i], j);
  }

  /** When the next action on connection j starts a command, the connection is quiet. */
  lemma QuietBetweenCommands(run: seq<Sys>, i: nat, j: nat)
    requires IsRun(run) && Init(run[0]) && GoodScript(run[0].todo, |run[0].chans|)
    requires i < |run| && j < |run[i].chans| && StartsCommand(Rest(run[i].todo, j))
    ensures run[i].chans[j].pc == AtCmd && run[i].chans[j].c2s == [] && run[i].chans[j].s2c == []
  {
    InitInv(run[0]);
    RunKeepsInv(run, i);
    assert HealthyAt(run[i], j);
    QuietAtCommand(run[i].chans[j], SubOf(run[i], j), Rest(run[i].todo, j));
  }

  // ----- no deadlock, and no endless run

  ghost predicate CanMove(s: Sys) {
    exists t :: Step(s, t)
  }

  lemma NoDeadlock(s: Sys)
    requires Inv(s) && s.todo != []
    ensures CanMove(s)
  {
    var i := s.todo[0].0;
    var c, rest := s.chans[i], Rest(s.todo, i);
    assert HealthyAt(s, i);
    SomeoneCanStep(c, s.sub, rest);
    if ControllerCanStep(c, s.sub, rest) {
      var c', sub', rest' :| ControllerStep(c, s.sub, rest, c', sub', rest');
      var t := Sys(if rest' == rest then s.todo else s.todo[1..], sub', s.chans[i := c']);
      assert t.chans[i] == c';
      assert ControllerMoves(s, t);
      assert Step(s, t);
    } else {
      var d :| ServerStep(c, d);
      ServerCanMove(s, i, d);
    }
  }

  lemma ServerCanMove(s: Sys, j: nat, d: Chan)
    requires j < |s.chans| && ServerStep(s.chans[j], d)
    ensures CanMove(s)
  {
    var t := s.(chans := s.chans[j := d]);
    assert ServerMoves(s, t, j);
    assert Step(s, t);
  }

  function WorkUpTo(s: Sys, n: nat): nat
    requires n <= |s.chans|
  {
    if n == 0 then 0 else WorkUpTo(s, n - 1) + Work(s.chans[n - 1], SubOf(s, n - 1))
  }

  function TotalWork(s: Sys): nat {
    WorkUpTo(s, |s.chans|)
  }

  lemma {:induction false} WorkChanges(s: Sys, t: Sys, i: nat, n: nat)
    requires n <= |s.chans| == |t.chans|
    requires i < |s.chans| && Work(t.chans[i], SubOf(t, i)) < Work(s.chans[i], SubOf(s, i))
    requires forall j: nat :: j < |s.chans| && j != i ==> t.chans[j] == s.chans[j] && SubOf(t, j) == SubOf(s, j)
    ensures if i < n then WorkUpTo(t, n) < WorkUpTo(s, n) else WorkUpTo(t, n) == WorkUpTo(s, n)
  {
    if n > 0 {
      WorkChanges(s, t, i, n - 1);
    }
  }

  lemma ControllerDecreases(s: Sys, t: Sys)
    requires Inv(s) && ControllerMoves(s, t)
    ensures |t.todo| < |s.todo| || (t.todo == s.todo && TotalWork(t) < TotalWork(s))
  {
    var i := s.todo[0].0;
    var rest := Rest(s.todo, i);
    var rest' :| ControllerStep(s.chans[i], s.sub, rest, t.chans[i], t.sub, rest') &&
                 t.todo == (if rest' == rest then s.todo else s.todo[1..]);
    if rest' == rest {
      assert |rest[1..]| < |rest|;
      assert HealthyAt(s, i);
      AwaitWorks(s.chans[i], s.sub, rest, t.chans[i], t.sub);
      WorkChanges(s, t, i, |s.chans|);
    }
  }

  lemma ServerDecreases(s: Sys, t: Sys, j: nat)
    requires Inv(s) && ServerMoves(s, t, j)
    ensures t.todo == s.todo && TotalWork(t) < TotalWork(s)
  {
    assert HealthyAt(s, j);
    ServerWorks(s.chans[j], SubOf(s, j), Rest(s.todo, j), t.chans[j]);
    WorkChanges(s, t, j, |s.chans|);
  }

  /** Every step shortens the script or leaves less work to the servers: there is no endless run. */
  lemma StepDecreases(s: Sys, t: Sys)
    requires Inv(s) && Step(s, t)
    ensures |t.todo| < |s.todo| || (t.todo == s.todo && TotalWork(t) < TotalWork(s))
  {
    if ControllerMoves(s, t) {
      ControllerDecreases(s, t);
    } else {
      var j: nat :| ServerMoves(s, t, j);
      ServerDecreases(s, t, j);
    }
  }

  /** Where nothing moves any more, the script is done and every server has stopped or waits at its command read. */
  lemma StuckIsDone(s: Sys, j: nat)
    requires Inv(s) && !CanMove(s) && j < |s.chans|
    ensures s.todo == []
    ensures s.chans[j].pc == Stopped || s.chans[j].pc == AtCmd
    ensures s.chans[j].c2s == [] && s.chans[j].s2c == []
  {
    if s.todo != [] {
      NoDeadlock(s);
    }
    var c := s.chans[j];
    assert HealthyAt(s, j);
    if CanStep(c) {
      var d :| ServerStep(c, d);
      ServerCanMove(s, j, d);
    }
    IdleAtEnd(c);
  }

  lemma IdleAtEnd(c: Chan)
    requires Healthy(c, AtReply, []) && !CanStep(c)
    ensures (c.pc == Stopped || c.pc == AtCmd) && c.c2s == [] && c.s2c == []
  {
    if Receiving(c.pc) {
      QueueMessages(c.pc, ToServer(c), ToController(c), AtReply, []);
      if c.c2s != [] {
        ReceivingCanStep(c);
      } else {
        assert ToServer(c) == [];
        assert Sends([]) + [] == [];
      }
    } else if c.pc != Stopped && c.pc != Crashed {
      LocalCanStep(c);
    }
  }

  lemma RunCons(s: Sys, tail: seq<Sys>)
    requires IsRun(tail) && Step(s, tail[0])
    ensures IsRun([s] + tail)
  {
    var run := [s] + tail;
    forall i: nat | i + 1 < |run| ensures Consecutive(run, i) {
      if i > 0 {
        assert Consecutive(tail, i - 1);
      }
    }
  }

  /** From every state of the invariant the system can be run until nothing moves any more. */
  lemma {:induction false} RunsToTheEnd(s: Sys) returns (run: seq<Sys>)
    requires Inv(s)
    ensures IsRun(run) && run[0] == s && Inv(run[|run| - 1]) && !CanMove(run[|run| - 1])
    decreases |s.todo|, TotalWork(s)
  {
    if !CanMove(s) {
      run := [s];
    } else {
      var t :| Step(s, t);
      StepKeepsInv(s, t);
      StepDecreases(s, t);
      var tail := RunsToTheEnd(t);
      RunCons(s, tail);
      run := [s] + tail;
    }
  }
}
